/** The order in which Redis ZPOPMIN hands out the members of a sorted set:
    ascending score, ties broken by the bytes of the member. */
module Ordering {

  type Id = string
  type ZSet = map<Id, int>

  /** Byte-wise (memcmp) order on members; ids are uuids, so one char is one byte. */
  predicate Below(a: Id, b: Id) {
    b != "" && (a == "" || a[0] < b[0] || (a[0] == b[0] && Below(a[1..], b[1..])))
  }

  /** That is: it ends where the other goes on, or is less where they first differ. */
  lemma {:induction false} BelowIff(a: Id, b: Id)
    ensures Below(a, b) <==>
              (a <= b && a != b) || exists i :: 0 <= i < |a| && i < |b| && a[..i] == b[..i] && a[i] < b[i]
  {
    if a != "" && b != "" {
      BelowIff(a[1..], b[1..]);
      assert a == [a[0]] + a[1..] && b == [b[0]] + b[1..];
      if a[0] == b[0] {
        FirstDifference(a, b);
      } else if a[0] < b[0] {
        assert a[..0] == b[..0];
      }
    }
  }

  lemma {:induction false} FirstDifference(a: Id, b: Id)
    requires a != "" && b != "" && a[0] == b[0]
    ensures (exists i :: 0 <= i < |a| && i < |b| && a[..i] == b[..i] && a[i] < b[i])
            <==> exists i :: 0 <= i < |a| - 1 && i < |b| - 1 && a[1..][..i] == b[1..][..i] && a[1..][i] < b[1..][i]
  {
    var x, y := a[1..], b[1..];
    forall i | 0 <= i < |a| && i < |b| && a[..i] == b[..i] && a[i] < b[i]
      ensures i > 0 && x[..i - 1] == y[..i - 1] && x[i - 1] < y[i - 1]
    {
      assert x[..i - 1] == a[..i][1..] && y[..i - 1] == b[..i][1..];
    }
    forall i | 0 <= i < |x| && i < |y| && x[..i] == y[..i] && x[i] < y[i]
      ensures a[..i + 1] == b[..i + 1] && a[i + 1] < b[i + 1]
    {
      assert a[..i + 1] == [a[0]] + x[..i] && b[..i + 1] == [b[0]] + y[..i];
    }
  }

  lemma {:induction false} BelowTotal(a: Id, b: Id)
    ensures a == b || Below(a, b) || Below(b, a)
    ensures !(Below(a, b) && Below(b, a))
  {
    if a != "" && b != "" {
      BelowTotal(a[1..], b[1..]);
      assert a == [a[0]] + a[1..] && b == [b[0]] + b[1..];
    }
  }

  lemma {:induction false} BelowTransitive(a: Id, b: Id, c: Id)
    requires Below(a, b) && Below(b, c)
    ensures Below(a, c)
  {
    if a != "" && a[0] == b[0] == c[0] {
      BelowTransitive(a[1..], b[1..], c[1..]);
    }
  }

  predicate Before(z: ZSet, a: Id, b: Id)
    requires a in z && b in z
  {
    z[a] < z[b] || (z[a] == z[b] && Below(a, b))
  }

  predicate IsFirst(z: ZSet, a: Id) {
    a in z && forall b | b in z && b != a :: Before(z, a, b)
  }

  lemma {:induction false} FirstExists(z: ZSet)
    requires z.Keys != {}
    ensures exists a :: IsFirst(z, a)
    decreases |z|
  {
    var x :| x in z;
    var rest := z - {x};
    assert forall b | b in z && b != x :: b in rest.Keys;
    if rest.Keys == {} {
      assert IsFirst(z, x);
    } else {
      FirstExists(rest);
      var y :| IsFirst(rest, y);
      BelowTotal(x, y);
      if Before(z, y, x) {
        assert IsFirst(z, y);
      } else {
        forall b | b in z && b != x ensures Before(z, x, b) {
          if b != y && z[x] == z[y] == z[b] {
            assert Before(rest, y, b);
            BelowTransitive(x, y, b);
          } else if b != y {
            assert Before(rest, y, b);
          }
        }
        assert IsFirst(z, x);
      }
    }
  }

  lemma {:induction false} FirstUnique(z: ZSet, a: Id, b: Id)
    requires IsFirst(z, a) && IsFirst(z, b)
    ensures a == b
  {
    BelowTotal(a, b);
  }

  /** The member ZPOPMIN removes. */
  function First(z: ZSet): (a: Id)
    requires z.Keys != {}
    ensures IsFirst(z, a)
  {
    FirstExists(z);
    assert forall a, b | IsFirst(z, a) && IsFirst(z, b) :: a == b by {
      forall a, b | IsFirst(z, a) && IsFirst(z, b) ensures a == b { FirstUnique(z, a, b); }
    }
    var a :| a in z && IsFirst(z, a);
    a
  }

  lemma {:induction false} FirstOfPart(z: ZSet, part: ZSet)
    requires part.Keys != {} && forall b | b in part :: b in z && part[b] == z[b]
    ensures First(part) in part && forall b | b in part && b != First(part) :: Before(z, First(part), b)
  {
    forall b | b in part && b != First(part) ensures Before(z, First(part), b) {
      assert Before(part, First(part), b);
    }
  }

  /** Members of `z` listed in ZPOPMIN order. */
  ghost predicate Ordered(z: ZSet, ids: seq<Id>) {
    && (forall i :: 0 <= i < |ids| ==> ids[i] in z)
    && (forall i, j :: 0 <= i < j < |ids| ==> Before(z, ids[i], ids[j]))
  }

  /** `ids` are in order and come before all of `rest`, a part of `z`. */
  ghost predicate ListedBefore(z: ZSet, ids: seq<Id>, rest: ZSet) {
    && Ordered(z, ids) && (forall b | b in rest :: b in z && rest[b] == z[b])
    && forall i, b :: 0 <= i < |ids| && b in rest ==> Before(z, ids[i], b)
  }

  lemma {:induction false} ListNext(z: ZSet, ids: seq<Id>, rest: ZSet)
    requires ListedBefore(z, ids, rest) && rest.Keys != {}
    ensures ListedBefore(z, ids + [First(rest)], rest - {First(rest)})
  {
    FirstOfPart(z, rest);
  }
}
