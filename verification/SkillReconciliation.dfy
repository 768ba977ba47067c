/**
 * The skill list of an instance: installed rows and skills found in the container are joined by
 * name, and the result is sorted in place.
 */
module SkillReconciliation {
  import opened Options
  import opened TextOrder

  datatype Row = Row(name: string, source: string, sourceRef: string, version: string, latest: Option<string>)
  datatype Info = Info(name: string, builtin: bool, managed: bool, description: string)

  datatype Status = Active | Pending | Unknown | Builtin | SelfCreated
  datatype Category = Manager | HermesBuiltin | HermesSystem | HermesSelfCreated

  datatype Entry = Entry(name: string, source: string, sourceRef: string, version: string, latest: string, status: Status,
                         category: Category, protected: bool, description: string)

  /** What asking the container gave: it is not asked, has no skill interface, is down, or answers. */
  datatype Listing = NotAsked | NoInterface | Down | Running(skills: seq<Info>)

  /** Whether the instance was found, and whether the caller may see it. */
  datatype Access = NotLocated | Located(allowed: bool)

  datatype Refusal = NoSuchApp | Denied | StoreFailed | RuntimeUnsupported

  // ---- One entry -----------------------------------------------------------------------------

  function ManagerEntry(row: Row, status: Status, protected: bool): Entry {
    Entry(row.name, row.source, row.sourceRef, row.version, if row.latest.Some? then row.latest.value else "",
          status, Manager, protected, "")
  }

  function FoundEntry(info: Info, expected: map<string, Row>, protected: set<string>): Entry {
    if info.name in expected then
      ManagerEntry(expected[info.name], Active, info.name in protected).(description := info.description)
    else if info.builtin then Entry(info.name, "", "", "", "", Builtin, HermesBuiltin, false, info.description)
    else if info.managed then Entry(info.name, "", "", "", "", Builtin, HermesSystem, false, info.description)
    else Entry(info.name, "", "", "", "", SelfCreated, HermesSelfCreated, false, info.description)
  }

  function MissingEntry(row: Row, reachable: bool, protected: bool): Entry {
    ManagerEntry(row, if reachable then Pending else Unknown, protected)
  }

  // ---- Groups of one name --------------------------------------------------------------------

  function Named(entries: seq<Entry>, name: string): seq<Entry> {
    if entries == [] then []
    else Named(entries[..|entries| - 1], name)
         + if entries[|entries| - 1].name == name then [entries[|entries| - 1]] else []
  }

  lemma {:induction false} NamedInParts(a: seq<Entry>, b: seq<Entry>, name: string)
    ensures Named(a + b, name) == Named(a, name) + Named(b, name)
    decreases |b|
  {
    if b == [] {
      assert a + b == a;
    } else {
      var n := |b| - 1;
      assert (a + b)[..|a| + n] == a + b[..n];
      NamedInParts(a, b[..n], name);
    }
  }

  lemma NamedOne(e: Entry, name: string)
    ensures Named([e], name) == if e.name == name then [e] else []
  {
    assert [e][..0] == [];
  }

  lemma {:induction false} NamedAreNamed(entries: seq<Entry>, name: string)
    ensures forall e :: e in Named(entries, name) <==> e in entries && e.name == name
    decreases |entries|
  {
    if entries != [] {
      var n := |entries| - 1;
      NamedAreNamed(entries[..n], name);
      assert entries == entries[..n] + [entries[n]];
    }
  }

  ghost predicate SameGroups(a: seq<Entry>, b: seq<Entry>) {
    forall name :: Named(a, name) == Named(b, name)
  }

  lemma NamedPair(x: Entry, y: Entry, name: string)
    requires x.name != y.name
    ensures Named([x] + [y], name) == Named([y] + [x], name)
  {
    NamedInParts([x], [y], name);
    NamedInParts([y], [x], name);
    NamedOne(x, name);
    NamedOne(y, name);
  }

  lemma PairInTheMiddle(front: seq<Entry>, x: Entry, y: Entry, back: seq<Entry>)
    requires x.name != y.name
    ensures SameGroups(front + ([x] + [y]) + back, front + ([y] + [x]) + back)
  {
    forall name ensures Named(front + ([x] + [y]) + back, name) == Named(front + ([y] + [x]) + back, name) {
      NamedInParts(front + ([x] + [y]), back, name);
      NamedInParts(front + ([y] + [x]), back, name);
      NamedInParts(front, [x] + [y], name);
      NamedInParts(front, [y] + [x], name);
      NamedPair(x, y, name);
    }
  }

  lemma SwapKeepsGroups(s: seq<Entry>, j: nat)
    requires 0 < j < |s| && s[j].name != s[j - 1].name
    ensures SameGroups(s[j := s[j - 1]][j - 1 := s[j]], s)
  {
    var front, back := s[..j - 1], s[j + 1..];
    assert s == front + ([s[j - 1]] + [s[j]]) + back;
    assert s[j := s[j - 1]][j - 1 := s[j]] == front + ([s[j]] + [s[j - 1]]) + back;
    PairInTheMiddle(front, s[j], s[j - 1], back);
  }

  // ---- Sorting in place ----------------------------------------------------------------------

  ghost predicate SortedBy(before: (string, string) -> bool, s: seq<Entry>) {
    forall i, j | 0 <= i < j < |s| :: !before(s[j].name, s[i].name)
  }

  /** Sorted but for the entry at j, which may have to move further to the front. */
  ghost predicate SortedBut(before: (string, string) -> bool, s: seq<Entry>, j: nat) {
    && (forall i, k | 0 <= i < k < |s| && i != j && k != j :: !before(s[k].name, s[i].name))
    && (forall k | j < k < |s| :: before(s[j].name, s[k].name))
  }

  lemma SwapKeepsSortedBut(before: (string, string) -> bool, s: seq<Entry>, j: nat)
    requires IsOrder(before) && 0 < j < |s| && SortedBut(before, s, j) && before(s[j].name, s[j - 1].name)
    ensures SortedBut(before, s[j := s[j - 1]][j - 1 := s[j]], j - 1)
  {
  }

  lemma SortedAtLast(before: (string, string) -> bool, s: seq<Entry>, j: nat)
    requires IsOrder(before) && j < |s| && SortedBut(before, s, j)
    requires j > 0 ==> !before(s[j].name, s[j - 1].name)
    ensures SortedBy(before, s)
  {
  }

  method SortByName(before: (string, string) -> bool, results: array<Entry>)
    requires IsOrder(before)
    modifies results
    ensures SortedBy(before, results[..]) && SameGroups(results[..], old(results[..]))
  {
    var i := 1;
    while i < results.Length
      invariant results.Length > 0 ==> 1 <= i <= results.Length
      invariant results.Length > 0 ==> SortedBy(before, results[..i])
      invariant SameGroups(results[..], old(results[..]))
    {
      Sink(before, results, i);
      i := i + 1;
    }
    assert results[..] == if results.Length > 0 then results[..i] else [];
  }

  /** The inner loop: one entry moves to the front past every later name. */
  method Sink(before: (string, string) -> bool, results: array<Entry>, i: nat)
    requires IsOrder(before) && 0 < i < results.Length && SortedBy(before, results[..i])
    modifies results
    ensures SortedBy(before, results[..i + 1]) && SameGroups(results[..], old(results[..]))
  {
    var j := i;
    while j > 0 && before(results[j].name, results[j - 1].name)
      invariant 0 <= j <= i && SortedBut(before, results[..i + 1], j)
      invariant SameGroups(results[..], old(results[..]))
    {
      ghost var whole, part := results[..], results[..i + 1];
      SwapKeepsGroups(whole, j);
      SwapKeepsSortedBut(before, part, j);
      results[j], results[j - 1] := results[j - 1], results[j];
      assert results[..] == whole[j := whole[j - 1]][j - 1 := whole[j]];
      assert results[..i + 1] == part[j := part[j - 1]][j - 1 := part[j]];
      j := j - 1;
    }
    SortedAtLast(before, results[..i + 1], j);
  }

  // ---- The list ------------------------------------------------------------------------------

  /** Rows by name; names are unique in the table, and a later row would replace an earlier one. */
  function ByName(rows: seq<Row>): map<string, Row> {
    if rows == [] then map[] else ByName(rows[..|rows| - 1])[rows[|rows| - 1].name := rows[|rows| - 1]]
  }

  method IndexByName(rows: seq<Row>) returns (expected: map<string, Row>)
    ensures expected == ByName(rows)
  {
    expected := map[];
    for i := 0 to |rows|
      invariant expected == ByName(rows[..i])
    {
      assert rows[..i + 1][..i] == rows[..i];
      expected := expected[rows[i].name := rows[i]];
    }
    assert rows[..|rows|] == rows;
  }

  predicate IsLastNamed(rows: seq<Row>, i: nat, name: string) {
    i < |rows| && rows[i].name == name && forall j | i < j < |rows| :: rows[j].name != name
  }

  /** Under each name the last row of that name, and no other names. */
  lemma {:induction false} ByNameIsTheLast(rows: seq<Row>, name: string)
    ensures name in ByName(rows) <==> exists i: nat :: IsLastNamed(rows, i, name)
    ensures forall i: nat :: IsLastNamed(rows, i, name) ==> ByName(rows)[name] == rows[i]
    decreases |rows|
  {
    if rows != [] {
      var n := |rows| - 1;
      ByNameIsTheLast(rows[..n], name);
      if rows[n].name == name {
        assert IsLastNamed(rows, n, name);
      } else {
        forall i: nat ensures IsLastNamed(rows, i, name) <==> IsLastNamed(rows[..n], i, name) {
        }
      }
    }
  }

  ghost predicate KeyedByName(expected: map<string, Row>) {
    forall name <- expected :: expected[name].name == name
  }

  lemma {:induction false} ByNameKeepsNames(rows: seq<Row>)
    ensures KeyedByName(ByName(rows))
    decreases |rows|
  {
    if rows != [] {
      ByNameKeepsNames(rows[..|rows| - 1]);
    }
  }

  function Names(actual: seq<Info>): set<string> {
    set info <- actual :: info.name
  }

  function FoundEntries(actual: seq<Info>, expected: map<string, Row>, protected: set<string>): seq<Entry> {
    if actual == [] then []
    else FoundEntries(actual[..|actual| - 1], expected, protected)
         + [FoundEntry(actual[|actual| - 1], expected, protected)]
  }

  /** What the container has, by name, and what the installed rows say about it. */
  datatype Sides = Sides(found: seq<Entry>, seen: set<string>, expected: map<string, Row>, reachable: bool, protected: set<string>)
  {
    /** What the list shows under one name: what the container has, else the row, else nothing. */
    function Group(name: string): seq<Entry> {
      if name in seen then Named(found, name)
      else if name in expected then [MissingEntry(expected[name], reachable, name in protected)]
      else []
    }

    ghost predicate Agree() {
      KeyedByName(expected) && forall name :: name !in seen ==> Named(found, name) == []
    }
  }

  function SidesOf(actual: seq<Info>, expected: map<string, Row>, reachable: bool, protected: set<string>): Sides {
    Sides(FoundEntries(actual, expected, protected), Names(actual), expected, reachable, protected)
  }

  /** The list so far, with some rows still to be looked at. */
  ghost predicate IsJoin(out: seq<Entry>, sides: Sides, left: set<string>) {
    forall name :: Named(out, name) == if name in left && name !in sides.seen then [] else sides.Group(name)
  }

  lemma {:induction false} SidesAgree(actual: seq<Info>, expected: map<string, Row>, reachable: bool, protected: set<string>)
    requires KeyedByName(expected)
    ensures SidesOf(actual, expected, reachable, protected).Agree()
    decreases |actual|
  {
    if actual != [] {
      var n := |actual| - 1;
      var entry := FoundEntry(actual[n], expected, protected);
      SidesAgree(actual[..n], expected, reachable, protected);
      assert actual == actual[..n] + [actual[n]];
      forall name | name !in Names(actual) ensures Named(FoundEntries(actual, expected, protected), name) == [] {
        NamedInParts(FoundEntries(actual[..n], expected, protected), [entry], name);
        NamedOne(entry, name);
      }
    }
  }

  lemma OneMoreFound(actual: seq<Info>, expected: map<string, Row>, protected: set<string>, i: nat)
    requires i < |actual|
    ensures FoundEntries(actual[..i + 1], expected, protected)
         == FoundEntries(actual[..i], expected, protected) + [FoundEntry(actual[i], expected, protected)]
    ensures Names(actual[..i + 1]) == Names(actual[..i]) + {actual[i].name}
  {
    assert actual[..i + 1][..i] == actual[..i];
    assert actual[..i + 1] == actual[..i] + [actual[i]];
  }

  method JoinFound(actual: seq<Info>, expected: map<string, Row>, protected: set<string>)
    returns (out: seq<Entry>, seen: set<string>)
    ensures out == FoundEntries(actual, expected, protected) && seen == Names(actual)
  {
    out, seen := [], {};
    for i := 0 to |actual|
      invariant out == FoundEntries(actual[..i], expected, protected) && seen == Names(actual[..i])
    {
      OneMoreFound(actual, expected, protected, i);
      seen := seen + {actual[i].name};
      out := out + [FoundEntry(actual[i], expected, protected)];
    }
    assert actual[..|actual|] == actual;
  }

  lemma JoinOne(out: seq<Entry>, sides: Sides, left: set<string>, name: string)
    requires IsJoin(out, sides, left) && sides.Agree()
    requires name in left && name in sides.expected && name !in sides.seen
    ensures IsJoin(out + [MissingEntry(sides.expected[name], sides.reachable, name in sides.protected)], sides, left - {name})
  {
    var e := MissingEntry(sides.expected[name], sides.reachable, name in sides.protected);
    forall other
      ensures Named(out + [e], other) == if other in left - {name} && other !in sides.seen then [] else sides.Group(other)
    {
      NamedInParts(out, [e], other);
      NamedOne(e, other);
    }
  }

  method JoinMissing(sides: Sides) returns (out: seq<Entry>)
    requires sides.Agree()
    ensures IsJoin(out, sides, {})
  {
    out := sides.found;
    var left := sides.expected.Keys;
    while left != {}
      invariant left <= sides.expected.Keys && IsJoin(out, sides, left)
      decreases |left|
    {
      var name :| name in left;
      if name !in sides.seen {
        JoinOne(out, sides, left, name);
        out := out + [MissingEntry(sides.expected[name], sides.reachable, name in sides.protected)];
      }
      left := left - {name};
    }
  }

  ghost predicate IsListing(out: seq<Entry>, actual: seq<Info>, expected: map<string, Row>, reachable: bool,
                            protected: set<string>) {
    SortedBy(Before, out) && IsJoin(out, SidesOf(actual, expected, reachable, protected), {})
  }

  /** A version whose skills cannot be read protects none; a container that cannot be reached leaves all rows unknown. */
  method List(access: Access, stored: Option<seq<Row>>, listing: Listing, required: Option<set<string>>)
    returns (result: Result<seq<Entry>, Refusal>)
    ensures access == NotLocated ==> result == Err(NoSuchApp)
    ensures access == Located(false) ==> result == Err(Denied)
    ensures access == Located(true) && stored.None? ==> result == Err(StoreFailed)
    ensures access == Located(true) && stored.Some? && listing == NoInterface ==> result == Err(RuntimeUnsupported)
    ensures access == Located(true) && stored.Some? && listing != NoInterface ==>
              result.Ok? && IsListing(result.value, if listing.Running? then listing.skills else [], ByName(stored.value),
                                      listing.Running?, if required.Some? then required.value else {})
  {
    if access.NotLocated? {
      return Err(NoSuchApp);
    }
    if !access.allowed {
      return Err(Denied);
    }
    if stored.None? {
      return Err(StoreFailed);
    }
    var expected := IndexByName(stored.value);
    ByNameKeepsNames(stored.value);
    var protected := if required.Some? then required.value else {};
    if listing.NoInterface? {
      return Err(RuntimeUnsupported);
    }
    var out := Joined(expected, listing, protected);
    result := Ok(out);
  }

  /** Both sides joined by name, and sorted in place. */
  method Joined(expected: map<string, Row>, listing: Listing, protected: set<string>) returns (out: seq<Entry>)
    requires KeyedByName(expected) && !listing.NoInterface?
    ensures IsListing(out, if listing.Running? then listing.skills else [], expected, listing.Running?, protected)
  {
    var actual := if listing.Running? then listing.skills else [];
    var found, seen := JoinFound(actual, expected, protected);
    SidesAgree(actual, expected, listing.Running?, protected);
    var joined := JoinMissing(Sides(found, seen, expected, listing.Running?, protected));
    var results := new Entry[|joined|](i requires 0 <= i < |joined| => joined[i]);
    assert results[..] == joined;
    BeforeIsOrder();
    SortByName(Before, results);
    out := results[..];
  }

  // ---- What the list shows -------------------------------------------------------------------

  lemma {:induction false} SortedGroupsAreEqual(before: (string, string) -> bool, a: seq<Entry>, b: seq<Entry>)
    requires IsOrder(before) && SortedBy(before, a) && SortedBy(before, b) && SameGroups(a, b)
    ensures a == b
    decreases |a|
  {
    if a == [] || b == [] {
      if a == [] {
        NoGroups(a, b);
      } else {
        NoGroups(b, a);
      }
    } else {
      LastIsLast(before, a, b);
      var m, n := |a| - 1, |b| - 1;
      forall name ensures Named(a[..m], name) == Named(b[..n], name) {
        NamedButLast(a, name);
        NamedButLast(b, name);
      }
      SortedGroupsAreEqual(before, a[..m], b[..n]);
      assert a == a[..m] + [a[m]] && b == b[..n] + [b[n]];
    }
  }

  lemma NoGroups(a: seq<Entry>, b: seq<Entry>)
    requires SameGroups(a, b) && a == []
    ensures b == []
  {
    if b != [] {
      NamedAreNamed(b, b[0].name);
    }
  }

  lemma NamedButLast(a: seq<Entry>, name: string)
    requires a != []
    ensures var group := Named(a, name);
            var last := a[|a| - 1];
            && (last.name == name ==> group != [])
            && Named(a[..|a| - 1], name) == if last.name == name then group[..|group| - 1] else group
  {
  }

  lemma LastIsLast(before: (string, string) -> bool, a: seq<Entry>, b: seq<Entry>)
    requires IsOrder(before) && SortedBy(before, a) && SortedBy(before, b) && SameGroups(a, b) && a != [] && b != []
    ensures a[|a| - 1] == b[|b| - 1]
  {
    var x, y := a[|a| - 1], b[|b| - 1];
    NamedAreNamed(a, x.name);
    NamedAreNamed(b, x.name);
    NamedAreNamed(a, y.name);
    NamedAreNamed(b, y.name);
    assert x in Named(b, x.name) && y in Named(a, y.name);
    assert !before(y.name, x.name) && !before(x.name, y.name);
    assert Named(a, x.name)[|Named(a, x.name)| - 1] == x;
    assert Named(b, x.name)[|Named(b, x.name)| - 1] == y;
  }

  /** The list does not depend on the order in which the map of rows is walked. */
  lemma ListingIsUnique(a: seq<Entry>, b: seq<Entry>, actual: seq<Info>, expected: map<string, Row>, reachable: bool,
                        protected: set<string>)
    requires IsListing(a, actual, expected, reachable, protected) && IsListing(b, actual, expected, reachable, protected)
    ensures a == b
  {
    BeforeIsOrder();
    SortedGroupsAreEqual(Before, a, b);
  }

  lemma {:induction false} FoundOnce(actual: seq<Info>, expected: map<string, Row>, protected: set<string>, k: nat)
    requires k < |actual| && forall i | 0 <= i < |actual| && i != k :: actual[i].name != actual[k].name
    requires KeyedByName(expected)
    ensures Named(FoundEntries(actual, expected, protected), actual[k].name) == [FoundEntry(actual[k], expected, protected)]
    decreases |actual|
  {
    var n := |actual| - 1;
    FoundOneMore(actual, expected, protected, actual[k].name);
    assert forall i | 0 <= i < n :: actual[..n][i] == actual[i];
    if k < n {
      assert actual[n].name != actual[k].name;
      FoundOnce(actual[..n], expected, protected, k);
    } else {
      NotFoundBefore(actual[..n], expected, protected, actual[k].name);
    }
  }

  lemma FoundOneMore(actual: seq<Info>, expected: map<string, Row>, protected: set<string>, name: string)
    requires actual != [] && KeyedByName(expected)
    ensures var n := |actual| - 1;
            Named(FoundEntries(actual, expected, protected), name)
              == Named(FoundEntries(actual[..n], expected, protected), name)
                 + if actual[n].name == name then [FoundEntry(actual[n], expected, protected)] else []
  {
    var last := FoundEntry(actual[|actual| - 1], expected, protected);
    NamedInParts(FoundEntries(actual[..|actual| - 1], expected, protected), [last], name);
    NamedOne(last, name);
  }

  lemma NotFoundBefore(actual: seq<Info>, expected: map<string, Row>, protected: set<string>, name: string)
    requires KeyedByName(expected) && forall i | 0 <= i < |actual| :: actual[i].name != name
    ensures Named(FoundEntries(actual, expected, protected), name) == []
  {
    SidesAgree(actual, expected, true, protected);
    assert name !in Names(actual);
    assert SidesOf(actual, expected, true, protected).Agree();
  }

  /** What the list says of a name, by what the two sides have of it. */
  ghost predicate RightlyListed(e: Entry, actual: seq<Info>, expected: map<string, Row>, reachable: bool, protected: set<string>) {
    var installed, running := e.name in expected, e.name in Names(actual);
    && (e.status == Active <==> installed && running)
    && (e.status == Pending <==> installed && !running && reachable)
    && (e.status == Unknown <==> installed && !running && !reachable)
    && (e.protected <==> installed && e.name in protected)
    && (e.category == Manager <==> installed)
    && (installed ==>
          var row := expected[e.name];
          && e.source == row.source && e.sourceRef == row.sourceRef && e.version == row.version
          && e.latest == match row.latest case Some(latest) => latest case None => "")
    && (!installed ==> e.source == e.sourceRef == e.version == e.latest == "")
    && (!running ==> e.description == "")
    && (forall info <- actual | info.name == e.name ::
          && e.description == info.description
          && (e.status == SelfCreated <==> !installed && !info.builtin && !info.managed)
          && (e.category == HermesBuiltin <==> !installed && info.builtin)
          && (e.category == HermesSystem <==> !installed && info.managed && !info.builtin)
          && (e.category == HermesSelfCreated <==> e.status == SelfCreated))
  }

  lemma FoundIsRight(actual: seq<Info>, expected: map<string, Row>, reachable: bool, protected: set<string>, info: Info)
    requires KeyedByName(expected) && info in actual && forall other <- actual | other.name == info.name :: other == info
    ensures RightlyListed(FoundEntry(info, expected, protected), actual, expected, reachable, protected)
  {
    assert info.name in Names(actual);
  }

  lemma MissingIsRight(actual: seq<Info>, expected: map<string, Row>, reachable: bool, protected: set<string>, name: string)
    requires KeyedByName(expected) && name in expected && name !in Names(actual)
    ensures RightlyListed(MissingEntry(expected[name], reachable, name in protected), actual, expected, reachable, protected)
  {
  }

  /** A full outer join: with distinct names each side's name is listed once, with its own status. */
  lemma ListedOnceWithItsStatus(out: seq<Entry>, actual: seq<Info>, expected: map<string, Row>, reachable: bool,
                                protected: set<string>, name: string)
    requires IsListing(out, actual, expected, reachable, protected)
    requires forall i, j | 0 <= i < j < |actual| :: actual[i].name != actual[j].name
    requires KeyedByName(expected)
    ensures |Named(out, name)| == if name in Names(actual) || name in expected then 1 else 0
    ensures forall e <- out | e.name == name :: RightlyListed(e, actual, expected, reachable, protected)
  {
    ListedUnderName(out, actual, expected, reachable, protected, name);
    NamedAreNamed(out, name);
    if name in Names(actual) {
      var info :| info in actual && info.name == name;
      assert forall other <- actual | other.name == name :: other == info by {
        forall other <- actual | other.name == name ensures other == info {
          var j :| 0 <= j < |actual| && actual[j] == other;
          var k :| 0 <= k < |actual| && actual[k] == info;
        }
      }
      FoundIsRight(actual, expected, reachable, protected, info);
    } else if name in expected {
      MissingIsRight(actual, expected, reachable, protected, name);
    }
  }

  lemma ListedUnderName(out: seq<Entry>, actual: seq<Info>, expected: map<string, Row>, reachable: bool,
                                protected: set<string>, name: string)
    requires IsListing(out, actual, expected, reachable, protected)
    requires forall i, j | 0 <= i < j < |actual| :: actual[i].name != actual[j].name
    requires KeyedByName(expected)
    ensures |Named(out, name)| == if name in Names(actual) || name in expected then 1 else 0
    ensures forall info <- actual | info.name == name :: Named(out, name) == [FoundEntry(info, expected, protected)]
    ensures name in expected && name !in Names(actual) ==>
              Named(out, name) == [MissingEntry(expected[name], reachable, name in protected)]
  {
    var sides := SidesOf(actual, expected, reachable, protected);
    assert Named(out, name) == sides.Group(name);
    if name in Names(actual) {
      var info :| info in actual && info.name == name;
      var k :| 0 <= k < |actual| && actual[k] == info;
      FoundOnce(actual, expected, protected, k);
      forall other <- actual | other.name == name ensures other == info {
        var j :| 0 <= j < |actual| && actual[j] == other;
      }
    }
  }
}
