/**
 Matched terms: `sorted(set(...))`, the one sorted list of a set of strings.
 */
module Terms {
  import opened Text

  predicate Increasing(s: seq<string>) {
    forall i, j :: 0 <= i < j < |s| ==> Less(s[i], s[j])
  }

  function Insert(t: string, s: seq<string>): seq<string> {
    if s == [] || Less(t, s[0]) then [t] + s
    else if t == s[0] then s
    else [s[0]] + Insert(t, s[1..])
  }

  /** sorted(set(s)). */
  function SortedSet(s: seq<string>): seq<string> {
    if s == [] then [] else Insert(s[0], SortedSet(s[1..]))
  }

  function Elements(s: seq<string>): set<string> {
    set t | t in s
  }

  lemma ElementsHead(s: seq<string>)
    requires s != []
    ensures Elements(s) == {s[0]} + Elements(s[1..])
  {
    assert s == [s[0]] + s[1..];
  }

  lemma {:induction false} InsertElements(t: string, s: seq<string>)
    ensures Elements(Insert(t, s)) == {t} + Elements(s)
  {
    ElementsHead(Insert(t, s));
    if s == [] {
    } else if Less(t, s[0]) {
      assert ([t] + s)[1..] == s;
    } else {
      ElementsHead(s);
      if t != s[0] {
        InsertElements(t, s[1..]);
        assert Insert(t, s)[1..] == Insert(t, s[1..]);
      }
    }
  }

  /** x stands before every element. */
  predicate Before(x: string, s: seq<string>) {
    forall t :: t in Elements(s) ==> Less(x, t)
  }

  lemma IncreasingHead(x: string, s: seq<string>)
    ensures Increasing([x] + s) <==> Before(x, s) && Increasing(s)
  {
    var xs := [x] + s;
    if Before(x, s) && Increasing(s) {
      forall i, j | 0 <= i < j < |xs| ensures Less(xs[i], xs[j]) {
        assert xs[j] in Elements(s);
      }
    }
    if Increasing(xs) {
      forall t | t in Elements(s) ensures Less(x, t) {
        var i :| 0 <= i < |s| && s[i] == t;
        assert xs[0] == x && xs[i + 1] == t;
      }
      forall i, j | 0 <= i < j < |s| ensures Less(s[i], s[j]) {
        assert xs[i + 1] == s[i] && xs[j + 1] == s[j];
      }
    }
  }

  lemma {:induction false} InsertIncreasing(t: string, s: seq<string>)
    requires Increasing(s)
    ensures Increasing(Insert(t, s))
  {
    if s == [] {
    } else {
      assert s == [s[0]] + s[1..];
      IncreasingHead(s[0], s[1..]);
      if Less(t, s[0]) {
        ElementsHead(s);
        forall x | x in Elements(s) ensures Less(t, x) {
          if x != s[0] {
            LessTransitive(t, s[0], x);
          }
        }
        IncreasingHead(t, s);
      } else if t != s[0] {
        LessTotal(t, s[0]);
        InsertIncreasing(t, s[1..]);
        InsertElements(t, s[1..]);
        IncreasingHead(s[0], Insert(t, s[1..]));
      }
    }
  }

  lemma {:induction false} SortedSetExact(s: seq<string>)
    ensures Increasing(SortedSet(s)) && Elements(SortedSet(s)) == Elements(s)
  {
    if s != [] {
      SortedSetExact(s[1..]);
      InsertIncreasing(s[0], SortedSet(s[1..]));
      InsertElements(s[0], SortedSet(s[1..]));
      ElementsHead(s);
    }
  }

  lemma NoElements(s: seq<string>)
    ensures Elements(s) == {} <==> s == []
  {
    if s != [] {
      assert s[0] in Elements(s);
    }
  }

  /** A set of terms has one sorted list. */
  lemma {:induction false} IncreasingUnique(a: seq<string>, b: seq<string>)
    requires Increasing(a) && Increasing(b) && Elements(a) == Elements(b)
    ensures a == b
  {
    NoElements(a);
    NoElements(b);
    if a != [] {
      assert a == [a[0]] + a[1..] && b == [b[0]] + b[1..];
      IncreasingHead(a[0], a[1..]);
      IncreasingHead(b[0], b[1..]);
      ElementsHead(a);
      ElementsHead(b);
      LessTotal(a[0], b[0]);
      assert a[0] in Elements(b) && b[0] in Elements(a);
      assert Elements(a[1..]) == Elements(b[1..]) by {
        LessTotal(a[0], a[0]);
        assert a[0] !in Elements(a[1..]) && b[0] !in Elements(b[1..]);
      }
      IncreasingUnique(a[1..], b[1..]);
    }
  }

  lemma ElementsConcat(a: seq<string>, b: seq<string>)
    ensures Elements(a + b) == Elements(a) + Elements(b)
  {
  }
}
