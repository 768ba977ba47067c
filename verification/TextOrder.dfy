/** The order of strings by their characters. */
module TextOrder {
  predicate Before(a: string, b: string) {
    b != "" && (a == "" || a[0] < b[0] || (a[0] == b[0] && Before(a[1..], b[1..])))
  }

  /** The texts agree up to a place where one has ended or has the smaller character. */
  predicate PartsAt(a: string, b: string, k: nat) {
    k <= |a| && k < |b| && (forall i | 0 <= i < k :: a[i] == b[i]) && (k == |a| || a[k] < b[k])
  }

  lemma {:induction false} BeforeExactlyWhen(a: string, b: string)
    ensures Before(a, b) <==> exists k: nat :: PartsAt(a, b, k)
    decreases |a|
  {
    if a != "" && b != "" && a[0] == b[0] {
      BeforeExactlyWhen(a[1..], b[1..]);
      forall k: nat ensures PartsAt(a[1..], b[1..], k) <==> PartsAt(a, b, k + 1) {
        if PartsAt(a[1..], b[1..], k) {
          forall i | 0 <= i < k + 1 ensures a[i] == b[i] {
            assert i > 0 ==> a[1..][i - 1] == b[1..][i - 1];
          }
        }
      }
      forall k: nat | PartsAt(a, b, k) ensures PartsAt(a[1..], b[1..], k - 1) {
        assert k - 1 + 1 == k;
      }
    } else {
      assert b != "" && (a == "" || a[0] < b[0]) ==> PartsAt(a, b, 0);
    }
  }

  lemma {:induction false} BeforeIsTotal(a: string, b: string)
    ensures Before(a, b) || Before(b, a) || a == b
    ensures !(Before(a, b) && Before(b, a)) && !(Before(a, b) && a == b)
    decreases |a|
  {
    if a != "" && b != "" {
      BeforeIsTotal(a[1..], b[1..]);
      if a[0] == b[0] {
        assert a == [a[0]] + a[1..] && b == [b[0]] + b[1..];
      }
    }
  }

  lemma {:induction false} BeforeIsTransitive(a: string, b: string, c: string)
    requires Before(a, b) && Before(b, c)
    ensures Before(a, c)
    decreases |a|
  {
    if a != "" && a[0] == b[0] == c[0] {
      BeforeIsTransitive(a[1..], b[1..], c[1..]);
    }
  }

  /** A sort only asks which of two keys comes first; this is all it may rely on. */
  ghost predicate IsOrder(before: (string, string) -> bool) {
    && (forall a, b :: !(before(a, b) && before(b, a)) && (before(a, b) || before(b, a) || a == b) && !before(a, a))
    && (forall a, b, c :: before(a, b) && before(b, c) ==> before(a, c))
  }

  lemma BeforeIsOrder()
    ensures IsOrder(Before)
  {
    forall a, b ensures !(Before(a, b) && Before(b, a)) && (Before(a, b) || Before(b, a) || a == b) && !Before(a, a) {
      BeforeIsTotal(a, b);
      BeforeIsTotal(a, a);
    }
    forall a, b, c | Before(a, b) && Before(b, c) ensures Before(a, c) {
      BeforeIsTransitive(a, b, c);
    }
  }
}
