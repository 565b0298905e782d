/** Change detection: which of the records read in one pass are reported as
    new against a set of keys already seen. A record is new when its key is
    not yet in the set, and its key goes into the set at once, so a record
    read twice in one pass is reported once. */
module Changes {

  /** The keys of the items. */
  function Keys<T(==)>(items: seq<T>, key: T -> string): set<string>
  {
    set x | x in items :: key(x)
  }

  /** The items reported as new, in order, scanning left to right. */
  function Unseen<T(==)>(seen: set<string>, items: seq<T>, key: T -> string): seq<T>
    decreases |items|
  {
    if |items| == 0 then []
    else if key(items[0]) in seen then Unseen(seen, items[1..], key)
    else [items[0]] + Unseen(seen + {key(items[0])}, items[1..], key)
  }

  lemma KeysAppend<T>(a: seq<T>, b: seq<T>, key: T -> string)
    ensures Keys(a + b, key) == Keys(a, key) + Keys(b, key)
  {
    assert forall x :: x in a + b <==> x in a || x in b;
  }

  lemma KeysCons<T>(items: seq<T>, key: T -> string)
    requires |items| > 0
    ensures Keys(items, key) == {key(items[0])} + Keys(items[1..], key)
  {
    assert items == [items[0]] + items[1..];
    KeysAppend([items[0]], items[1..], key);
  }

  /** Reading `a` then `b` reports what reading `a` reports, then what `b`
      reports against the keys `a` added. */
  lemma {:induction false} UnseenAppend<T>(seen: set<string>, a: seq<T>, b: seq<T>, key: T -> string)
    ensures Unseen(seen, a + b, key) == Unseen(seen, a, key) + Unseen(seen + Keys(a, key), b, key)
    decreases |a|
  {
    if |a| == 0 {
      assert a + b == b;
      assert Keys(a, key) == {};
      assert seen + {} == seen;
    } else {
      var k := key(a[0]);
      assert (a + b)[0] == a[0];
      assert (a + b)[1..] == a[1..] + b;
      KeysCons(a, key);
      if k in seen {
        UnseenAppend(seen, a[1..], b, key);
        assert seen + Keys(a, key) == seen + Keys(a[1..], key);
      } else {
        UnseenAppend(seen + {k}, a[1..], b, key);
        assert seen + {k} + Keys(a[1..], key) == seen + Keys(a, key);
      }
    }
  }

  /** The record at position i is reported exactly when its key is neither
      in the seen-set nor the key of an earlier record of the pass. */
  lemma ReportedIff<T>(seen: set<string>, items: seq<T>, i: nat, key: T -> string)
    requires i < |items|
    ensures Unseen(seen, items[..i + 1], key) ==
      Unseen(seen, items[..i], key) +
      (if key(items[i]) in seen + Keys(items[..i], key) then [] else [items[i]])
  {
    assert items[..i + 1] == items[..i] + [items[i]];
    UnseenAppend(seen, items[..i], [items[i]], key);
    assert [items[i]][1..] == [];
  }

  /** What is reported is new, each key once, and the reported keys are
      exactly the keys of the pass not seen before. */
  lemma {:induction false} UnseenKeys<T>(seen: set<string>, items: seq<T>, key: T -> string)
    ensures |Unseen(seen, items, key)| <= |items|
    ensures forall x :: x in Unseen(seen, items, key) ==> key(x) !in seen
    ensures Keys(Unseen(seen, items, key), key) == Keys(items, key) - seen
    ensures forall i, j :: 0 <= i < j < |Unseen(seen, items, key)| ==>
      key(Unseen(seen, items, key)[i]) != key(Unseen(seen, items, key)[j])
    decreases |items|
  {
    if |items| > 0 {
      var k := key(items[0]);
      KeysCons(items, key);
      if k in seen {
        UnseenKeys(seen, items[1..], key);
      } else {
        var rest := Unseen(seen + {k}, items[1..], key);
        UnseenKeys(seen + {k}, items[1..], key);
        var u := [items[0]] + rest;
        assert u == Unseen(seen, items, key);
        KeysCons(u, key);
        assert u[1..] == rest;
        forall i, j | 0 <= i < j < |u| ensures key(u[i]) != key(u[j]) {
          if i == 0 {
            assert u[j] == rest[j - 1] && u[j] in rest;
          } else {
            assert u[i] == rest[i - 1] && u[j] == rest[j - 1];
          }
        }
      }
    }
  }

  /** After a pass the seen-set is the old set plus the keys of every record
      examined, which is the old set plus the keys of the records reported. */
  lemma SeenAfterPass<T>(seen: set<string>, items: seq<T>, key: T -> string)
    ensures seen + Keys(items, key) == seen + Keys(Unseen(seen, items, key), key)
  {
    UnseenKeys(seen, items, key);
  }

  /** A pass over records whose keys are all known reports nothing: a second
      pass over the same records reports zero new. */
  lemma {:induction false} UnseenNone<T>(seen: set<string>, items: seq<T>, key: T -> string)
    requires Keys(items, key) <= seen
    ensures Unseen(seen, items, key) == []
    decreases |items|
  {
    if |items| > 0 {
      KeysCons(items, key);
      UnseenNone(seen, items[1..], key);
    }
  }

  /** Once reported, a record is never reported again: a later pass against
      the grown set leaves out every record with the same key. */
  lemma AtMostOnce<T>(seen: set<string>, first: seq<T>, later: seq<T>, key: T -> string)
    ensures forall x, y ::
      (x in Unseen(seen, first, key) && y in Unseen(seen + Keys(first, key), later, key)) ==> key(x) != key(y)
  {
    UnseenKeys(seen + Keys(first, key), later, key);
    forall x | x in Unseen(seen, first, key) ensures key(x) in Keys(first, key) {
      UnseenKeys(seen, first, key);
      assert key(x) in Keys(Unseen(seen, first, key), key);
    }
  }

  /** Lists whose items have the same keys position by position have the
      same key set. */
  lemma KeysPointwise<T>(a: seq<T>, b: seq<T>, key: T -> string)
    requires |a| == |b| && forall i :: 0 <= i < |a| ==> key(a[i]) == key(b[i])
    ensures Keys(a, key) == Keys(b, key)
  {
    forall k | k in Keys(a, key) ensures k in Keys(b, key) {
      var x :| x in a && key(x) == k;
      var i :| 0 <= i < |a| && a[i] == x;
      assert b[i] in b;
    }
    forall k | k in Keys(b, key) ensures k in Keys(a, key) {
      var x :| x in b && key(x) == k;
      var i :| 0 <= i < |b| && b[i] == x;
      assert a[i] in a;
    }
  }

  /** What a run of passes has reported so far, against the set `s0` it
      started from: exactly the keys added since, each once, none of them
      known at the start. */
  predicate FreshSince<T(==)>(s0: set<string>, s: set<string>, reported: seq<T>, key: T -> string)
  {
    s0 <= s && Keys(reported, key) == s - s0 &&
    (forall i :: 0 <= i < |reported| ==> key(reported[i]) !in s0) &&
    (forall i, j :: 0 <= i < j < |reported| ==> key(reported[i]) != key(reported[j]))
  }

  /** One more pass keeps the reports of a run fresh and without repeats. */
  lemma FreshSinceStep<T>(s0: set<string>, s: set<string>, reported: seq<T>, items: seq<T>, key: T -> string)
    requires FreshSince(s0, s, reported, key)
    ensures FreshSince(s0, s + Keys(items, key), reported + Unseen(s, items, key), key)
  {
    var u := Unseen(s, items, key);
    var all := reported + u;
    UnseenKeys(s, items, key);
    KeysAppend(reported, u, key);
    forall i | 0 <= i < |all| ensures key(all[i]) !in s0 {
      if i >= |reported| {
        assert all[i] == u[i - |reported|] && all[i] in u;
      } else {
        assert all[i] == reported[i];
      }
    }
    forall i, j | 0 <= i < j < |all| ensures key(all[i]) != key(all[j]) {
      if j >= |reported| {
        assert all[j] == u[j - |reported|] && all[j] in u;
        if i >= |reported| {
          assert all[i] == u[i - |reported|];
        } else {
          assert all[i] == reported[i] && all[i] in reported;
        }
      } else {
        assert all[i] == reported[i] && all[j] == reported[j];
      }
    }
  }

  /** The same for the reports gathered after a prefix `before` of a list
      that the pass extends. */
  lemma FreshSinceSuffix<T>(s0: set<string>, s: set<string>, before: seq<T>, all: seq<T>, items: seq<T>,
                            key: T -> string)
    requires before <= all
    requires FreshSince(s0, s, all[|before|..], key)
    ensures before <= all + Unseen(s, items, key)
    ensures FreshSince(s0, s + Keys(items, key), (all + Unseen(s, items, key))[|before|..], key)
  {
    FreshSinceStep(s0, s, all[|before|..], items, key);
    assert (all + Unseen(s, items, key))[|before|..] == all[|before|..] + Unseen(s, items, key);
  }

}
