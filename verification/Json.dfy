/**
 JSON values and their canonical text: `json.dumps(payload, sort_keys=True,
 separators=(",", ":"), ensure_ascii=False)`, on values without floats.

 A dict is a sequence of members, so the order in which its keys were inserted is
 part of the value here and has to be proved irrelevant.
 */
module Json {
  import opened Text

  datatype Json =
    | Null
    | Bool(b: bool)
    | Num(n: int)
    | Str(s: string)
    | Arr(items: seq<Json>)
    | Obj(members: seq<Member>)

  datatype Member = Member(key: string, value: Json)

  // ----- Strings -----

  function HexChar(d: nat): (c: char)
    requires d < 16
    ensures c != '"' && c != '\\'
  {
    if d < 10 then '0' + d as char else 'a' + (d - 10) as char
  }

  function HexValue(c: char): int {
    if IsDigit(c) then (c - '0') as int else c as int - 'a' as int + 10
  }

  /** What the encoder writes for one character of a string. */
  function EscapeChar(c: char): string {
    if c == '"' then "\\\""
    else if c == '\\' then "\\\\"
    else if c == '\U{8}' then "\\b"
    else if c == '\U{C}' then "\\f"
    else if c == '\n' then "\\n"
    else if c == '\r' then "\\r"
    else if c == '\t' then "\\t"
    else if c < ' ' then "\\u00" + [HexChar(c as nat / 16), HexChar(c as nat % 16)]
    else [c]
  }

  // Every printer takes the text that follows, so that a whole document is built
  // from the right and no proof has to re-associate a concatenation.

  /** The escaped characters of a string, its closing quote, and `rest`. */
  function QuoteTail(s: string, rest: string): string {
    if s == "" then ['"'] + rest else EscapeChar(s[0]) + QuoteTail(s[1..], rest)
  }

  function Quote(s: string, rest: string): string {
    ['"'] + QuoteTail(s, rest)
  }

  // ----- Values -----

  /** A value printed with its members in the order they are held, then `rest`. */
  function Print(v: Json, rest: string): string
    decreases v, 0
  {
    match v
    case Null => "null" + rest
    case Bool(b) => (if b then "true" else "false") + rest
    case Num(n) => Decimal(n) + rest
    case Str(s) => Quote(s, rest)
    case Arr(items) =>
      ['['] + if items == [] then [']'] + rest else Print(items[0], PrintItems(items[1..], rest))
    case Obj(ms) =>
      ['{'] + if ms == [] then ['}'] + rest else PrintMember(ms[0], PrintMembers(ms[1..], rest))
  }

  function PrintItems(items: seq<Json>, rest: string): string
    decreases items, 0
  {
    if items == [] then [']'] + rest
    else [','] + Print(items[0], PrintItems(items[1..], rest))
  }

  function PrintMember(m: Member, rest: string): string
    decreases m, 0
  {
    Quote(m.key, [':'] + Print(m.value, rest))
  }

  function PrintMembers(ms: seq<Member>, rest: string): string
    decreases ms, 0
  {
    if ms == [] then ['}'] + rest
    else [','] + PrintMember(ms[0], PrintMembers(ms[1..], rest))
  }

  /** `sorted(dct.items())`: by key, as no dict repeats a key. */
  function InsertMember(m: Member, ms: seq<Member>): seq<Member> {
    if ms == [] || Less(m.key, ms[0].key) then [m] + ms
    else [ms[0]] + InsertMember(m, ms[1..])
  }

  function SortMembers(ms: seq<Member>): seq<Member> {
    if ms == [] then [] else InsertMember(ms[0], SortMembers(ms[1..]))
  }

  /** The same value with every dict sorted by key. */
  function Norm(v: Json): Json
    decreases v, 0
  {
    match v
    case Arr(items) => Arr(NormItems(items))
    case Obj(ms) => Obj(SortMembers(NormMembers(ms)))
    case _ => v
  }

  function NormItems(items: seq<Json>): (r: seq<Json>)
    ensures |r| == |items|
    decreases items, 0
  {
    if items == [] then [] else [Norm(items[0])] + NormItems(items[1..])
  }

  function NormMembers(ms: seq<Member>): (r: seq<Member>)
    ensures |r| == |ms|
    decreases ms, 0
  {
    if ms == [] then [] else [Member(ms[0].key, Norm(ms[0].value))] + NormMembers(ms[1..])
  }

  function CanonicalJson(v: Json): string {
    Print(Norm(v), "")
  }

  predicate DistinctKeys(ms: seq<Member>) {
    forall i, j :: 0 <= i < j < |ms| ==> ms[i].key != ms[j].key
  }

  /** No dict in the value repeats a key. */
  predicate IsDict(v: Json)
    decreases v, 0
  {
    match v
    case Arr(items) => forall x <- items :: IsDict(x)
    case Obj(ms) => DistinctKeys(ms) && forall m <- ms :: IsDict(m.value)
    case _ => true
  }

  /** Equality as JSON values: lists in order, dicts key by key, and true is not 1. */
  predicate Same(a: Json, b: Json)
    decreases a, 0
  {
    match a
    case Arr(xs) => b.Arr? && |xs| == |b.items| && forall i :: 0 <= i < |xs| ==> Same(xs[i], b.items[i])
    case Obj(ms) => b.Obj? && |ms| == |b.members| && forall m <- ms :: HasMember(m, b.members)
    case _ => a == b
  }

  predicate HasMember(m: Member, ms: seq<Member>)
    decreases m, 0
  {
    exists i :: 0 <= i < |ms| && ms[i].key == m.key && Same(m.value, ms[i].value)
  }

  // ----- Printing is self-delimiting -----

  /** What can follow a value inside or after a canonical text. */
  predicate Boundary(r: string) {
    r == "" || r[0] in ",]}"
  }

  function CodeLength(t: string): nat {
    if t == "" || t[0] != '\\' then 1 else if |t| > 1 && t[1] == 'u' then 6 else 2
  }

  function UnescapeChar(t: string): int {
    if t == "" then 0
    else if t[0] != '\\' then t[0] as int
    else if |t| == 6 then 16 * HexValue(t[4]) + HexValue(t[5])
    else if |t| != 2 then 0
    else if t[1] == 'b' then 8
    else if t[1] == 'f' then 12
    else if t[1] == 'n' then 10
    else if t[1] == 'r' then 13
    else if t[1] == 't' then 9
    else t[1] as int
  }

  lemma EscapeShape(c: char, r: string)
    ensures |EscapeChar(c)| == CodeLength(EscapeChar(c) + r)
    ensures UnescapeChar(EscapeChar(c)) == c as int
    ensures EscapeChar(c)[0] != '"'
  {
    var e := EscapeChar(c);
    assert (e + r)[0] == e[0];
    if |e| > 1 {
      assert (e + r)[1] == e[1];
    }
  }

  lemma EscapeUnique(c: char, d: char, r: string, s: string)
    requires EscapeChar(c) + r == EscapeChar(d) + s
    ensures c == d && r == s
  {
    EscapeShape(c, r);
    EscapeShape(d, s);
    var x, y := EscapeChar(c), EscapeChar(d);
    assert x == (x + r)[..|x|] && y == (y + s)[..|x|];
    assert r == (x + r)[|x|..] && s == (y + s)[|x|..];
  }

  lemma EscapeHead(c: char, r: string)
    ensures (EscapeChar(c) + r)[0] != '"'
  {
    EscapeShape(c, r);
    assert (EscapeChar(c) + r)[0] == EscapeChar(c)[0];
  }

  lemma ConsUnique(c: char, d: char, r: string, s: string)
    requires [c] + r == [d] + s
    ensures c == d && r == s
  {
    assert ([c] + r)[0] == c && ([d] + s)[0] == d;
    assert ([c] + r)[1..] == r && ([d] + s)[1..] == s;
  }

  /** A quoted string ends at its own closing quote. */
  lemma {:induction false} QuoteTailUnique(s: string, t: string, r: string, q: string)
    requires QuoteTail(s, r) == QuoteTail(t, q)
    ensures s == t && r == q
  {
    if s != "" {
      EscapeHead(s[0], QuoteTail(s[1..], r));
    }
    if t != "" {
      EscapeHead(t[0], QuoteTail(t[1..], q));
    }
    if s == "" {
      ConsUnique('"', '"', r, q);
    } else {
      EscapeUnique(s[0], t[0], QuoteTail(s[1..], r), QuoteTail(t[1..], q));
      QuoteTailUnique(s[1..], t[1..], r, q);
      assert s == [s[0]] + s[1..] && t == [t[0]] + t[1..];
    }
  }

  lemma QuoteUnique(s: string, t: string, r: string, q: string)
    requires Quote(s, r) == Quote(t, q)
    ensures s == t && r == q
  {
    ConsUnique('"', '"', QuoteTail(s, r), QuoteTail(t, q));
    QuoteTailUnique(s, t, r, q);
  }

  function Kind(v: Json): nat {
    match v
    case Null => 0
    case Bool(b) => if b then 1 else 2
    case Num(_) => 3
    case Str(_) => 4
    case Arr(_) => 5
    case Obj(_) => 6
  }

  function KindOfChar(c: char): nat {
    if c == 'n' then 0 else if c == 't' then 1 else if c == 'f' then 2
    else if c == '-' || IsDigit(c) then 3
    else if c == '"' then 4 else if c == '[' then 5 else if c == '{' then 6 else 7
  }

  lemma PrintHead(v: Json, r: string)
    ensures Print(v, r) != "" && KindOfChar(Print(v, r)[0]) == Kind(v)
  {
    if v.Num? {
      DecimalSign(v.n, r);
      assert v.n >= 0 ==> (Digits(v.n) + r)[0] == Digits(v.n)[0];
    }
  }

  lemma DropPrefix(x: string, r: string, s: string)
    requires x + r == x + s
    ensures r == s
  {
    assert r == (x + r)[|x|..] && s == (x + s)[|x|..];
  }

  /** Canonical text is a prefix code: it says itself where a value ends. */
  lemma {:induction false} PrintUnique(a: Json, b: Json, r: string, s: string)
    requires Boundary(r) && Boundary(s)
    requires Print(a, r) == Print(b, s)
    ensures a == b && r == s
    decreases a, 0
  {
    PrintHead(a, r);
    PrintHead(b, s);
    match a
    case Null =>
      DropPrefix("null", r, s);
    case Bool(x) =>
      DropPrefix(if x then "true" else "false", r, s);
    case Num(m) =>
      DecimalUnique(m, b.n, r, s);
    case Str(x) =>
      QuoteUnique(x, b.s, r, s);
    case Arr(xs) =>
      ArrayUnique(xs, b.items, r, s);
    case Obj(ms) =>
      ObjectUnique(ms, b.members, r, s);
  }

  lemma {:induction false} ArrayUnique(xs: seq<Json>, ys: seq<Json>, r: string, s: string)
    requires Print(Arr(xs), r) == Print(Arr(ys), s)
    ensures xs == ys && r == s
    decreases xs, 1
  {
    var p := if xs == [] then [']'] + r else Print(xs[0], PrintItems(xs[1..], r));
    var q := if ys == [] then [']'] + s else Print(ys[0], PrintItems(ys[1..], s));
    ConsUnique('[', '[', p, q);
    if xs != [] {
      PrintHead(xs[0], PrintItems(xs[1..], r));
    }
    if ys != [] {
      PrintHead(ys[0], PrintItems(ys[1..], s));
    }
    if xs == [] {
      ConsUnique(']', ']', r, s);
    } else {
      PrintUnique(xs[0], ys[0], PrintItems(xs[1..], r), PrintItems(ys[1..], s));
      ItemsUnique(xs[1..], ys[1..], r, s);
      assert xs == [xs[0]] + xs[1..] && ys == [ys[0]] + ys[1..];
    }
  }

  lemma {:induction false} ItemsUnique(xs: seq<Json>, ys: seq<Json>, r: string, s: string)
    requires PrintItems(xs, r) == PrintItems(ys, s)
    ensures xs == ys && r == s
    decreases xs, 1
  {
    assert (xs == []) <==> PrintItems(xs, r)[0] == ']';
    if xs == [] {
      ConsUnique(']', ']', r, s);
    } else {
      var p, q := PrintItems(xs[1..], r), PrintItems(ys[1..], s);
      ConsUnique(',', ',', Print(xs[0], p), Print(ys[0], q));
      PrintUnique(xs[0], ys[0], p, q);
      ItemsUnique(xs[1..], ys[1..], r, s);
      assert xs == [xs[0]] + xs[1..] && ys == [ys[0]] + ys[1..];
    }
  }

  lemma {:induction false} MemberUnique(m: Member, n: Member, r: string, s: string)
    requires Boundary(r) && Boundary(s)
    requires PrintMember(m, r) == PrintMember(n, s)
    ensures m == n && r == s
    decreases m, 1
  {
    QuoteUnique(m.key, n.key, [':'] + Print(m.value, r), [':'] + Print(n.value, s));
    ConsUnique(':', ':', Print(m.value, r), Print(n.value, s));
    PrintUnique(m.value, n.value, r, s);
  }

  lemma {:induction false} ObjectUnique(ms: seq<Member>, ns: seq<Member>, r: string, s: string)
    requires Print(Obj(ms), r) == Print(Obj(ns), s)
    ensures ms == ns && r == s
    decreases ms, 1
  {
    var p := if ms == [] then ['}'] + r else PrintMember(ms[0], PrintMembers(ms[1..], r));
    var q := if ns == [] then ['}'] + s else PrintMember(ns[0], PrintMembers(ns[1..], s));
    ConsUnique('{', '{', p, q);
    assert (ms == []) <==> p[0] == '}';
    assert (ns == []) <==> q[0] == '}';
    if ms == [] {
      ConsUnique('}', '}', r, s);
    } else {
      MemberUnique(ms[0], ns[0], PrintMembers(ms[1..], r), PrintMembers(ns[1..], s));
      MembersUnique(ms[1..], ns[1..], r, s);
      assert ms == [ms[0]] + ms[1..] && ns == [ns[0]] + ns[1..];
    }
  }

  lemma {:induction false} MembersUnique(ms: seq<Member>, ns: seq<Member>, r: string, s: string)
    requires PrintMembers(ms, r) == PrintMembers(ns, s)
    ensures ms == ns && r == s
    decreases ms, 1
  {
    assert (ms == []) <==> PrintMembers(ms, r)[0] == '}';
    if ms == [] {
      ConsUnique('}', '}', r, s);
    } else {
      var p, q := PrintMembers(ms[1..], r), PrintMembers(ns[1..], s);
      ConsUnique(',', ',', PrintMember(ms[0], p), PrintMember(ns[0], q));
      MemberUnique(ms[0], ns[0], p, q);
      MembersUnique(ms[1..], ns[1..], r, s);
      assert ms == [ms[0]] + ms[1..] && ns == [ns[0]] + ns[1..];
    }
  }

  // ----- Sorting the keys forgets their order and nothing else -----

  predicate Sorted(ms: seq<Member>) {
    forall i, j :: 0 <= i < j < |ms| ==> Less(ms[i].key, ms[j].key)
  }

  lemma {:induction false} InsertMemberSorted(m: Member, ms: seq<Member>)
    requires Sorted(ms) && forall n <- ms :: n.key != m.key
    ensures Sorted(InsertMember(m, ms)) && |InsertMember(m, ms)| == |ms| + 1
    ensures forall n :: n in InsertMember(m, ms) <==> n == m || n in ms
  {
    if ms != [] {
      LessTotal(m.key, ms[0].key);
      if Less(m.key, ms[0].key) {
        forall j | 1 <= j < |ms| ensures Less(m.key, ms[j].key) {
          LessTransitive(m.key, ms[0].key, ms[j].key);
        }
      } else {
        InsertMemberSorted(m, ms[1..]);
        var r := InsertMember(m, ms[1..]);
        forall j | 0 <= j < |r| ensures Less(ms[0].key, r[j].key) {
          assert r[j] == m || r[j] in ms[1..];
        }
        assert ms == [ms[0]] + ms[1..];
      }
    }
  }

  lemma {:induction false} SortMembersSorted(ms: seq<Member>)
    requires DistinctKeys(ms)
    ensures Sorted(SortMembers(ms)) && |SortMembers(ms)| == |ms|
    ensures forall n :: n in SortMembers(ms) <==> n in ms
  {
    if ms != [] {
      SortMembersSorted(ms[1..]);
      forall n | n in SortMembers(ms[1..]) ensures n.key != ms[0].key {
        assert n in ms[1..];
      }
      InsertMemberSorted(ms[0], SortMembers(ms[1..]));
      assert ms == [ms[0]] + ms[1..];
    }
  }

  lemma {:induction false} SortedFits(p: seq<Member>, q: seq<Member>)
    requires Sorted(p) && forall m <- p :: m in q
    ensures |p| <= |q|
  {
    if p != [] {
      assert p[0] in q;
      var j :| 0 <= j < |q| && q[j] == p[0];
      var rest := q[..j] + q[j + 1..];
      forall i | 1 <= i < |p| ensures p[i] in rest {
        assert p[i] in q;
        var k :| 0 <= k < |q| && q[k] == p[i];
        LessTotal(p[0].key, p[i].key);
        assert k != j;
        assert rest[if k < j then k else k - 1] == p[i];
      }
      SortedFits(p[1..], rest);
    }
  }

  /** Sorted sequences of one length are equal as soon as one holds the other's members. */
  lemma {:induction false} SortedUnique(p: seq<Member>, q: seq<Member>)
    requires Sorted(p) && Sorted(q) && |p| == |q|
    requires forall m <- p :: m in q
    ensures p == q
  {
    if p != [] {
      var n := |p| - 1;
      assert p[n] in q;
      var j :| 0 <= j < |q| && q[j] == p[n];
      forall i | 0 <= i < n ensures p[i] in q[..j] {
        assert p[i] in q;
        var k :| 0 <= k < |q| && q[k] == p[i];
        LessTotal(p[i].key, p[n].key);
        LessTotal(q[j].key, q[k].key);
        assert k < j;
        assert q[..j][k] == p[i];
      }
      SortedFits(p[..n], q[..j]);
      assert q[..j] == q[..n];
      SortedUnique(p[..n], q[..n]);
      assert p == p[..n] + [p[n]] && q == q[..n] + [q[n]];
    }
  }

  lemma {:induction false} NormMembersAt(ms: seq<Member>, i: nat)
    requires i < |ms|
    ensures NormMembers(ms)[i] == Member(ms[i].key, Norm(ms[i].value))
  {
    if i > 0 {
      NormMembersAt(ms[1..], i - 1);
    }
  }

  lemma {:induction false} NormItemsAt(xs: seq<Json>, i: nat)
    requires i < |xs|
    ensures NormItems(xs)[i] == Norm(xs[i])
  {
    if i > 0 {
      NormItemsAt(xs[1..], i - 1);
    }
  }

  lemma NormMembersSorted(ms: seq<Member>)
    requires DistinctKeys(ms)
    ensures Sorted(SortMembers(NormMembers(ms))) && |SortMembers(NormMembers(ms))| == |ms|
    ensures forall n :: n in SortMembers(NormMembers(ms)) <==> n in NormMembers(ms)
  {
    forall i | 0 <= i < |ms| ensures NormMembers(ms)[i].key == ms[i].key {
      NormMembersAt(ms, i);
    }
    SortMembersSorted(NormMembers(ms));
  }

  lemma NormMemberIn(ms: seq<Member>, m: Member)
    requires m in ms
    ensures Member(m.key, Norm(m.value)) in NormMembers(ms)
  {
    var i :| 0 <= i < |ms| && ms[i] == m;
    NormMembersAt(ms, i);
  }

  lemma NormMemberOf(ms: seq<Member>, x: Member) returns (m: Member)
    requires x in NormMembers(ms)
    ensures m in ms && x == Member(m.key, Norm(m.value))
  {
    var i :| 0 <= i < |ms| && NormMembers(ms)[i] == x;
    NormMembersAt(ms, i);
    m := ms[i];
  }

  lemma NormSameMembers(ms: seq<Member>, ns: seq<Member>)
    requires DistinctKeys(ms) && DistinctKeys(ns)
    requires forall m <- ms :: Member(m.key, Norm(m.value)) in NormMembers(ns) <==> HasMember(m, ns)
    ensures SortMembers(NormMembers(ms)) == SortMembers(NormMembers(ns)) <==>
            |ms| == |ns| && forall m <- ms :: HasMember(m, ns)
  {
    var p, q := SortMembers(NormMembers(ms)), SortMembers(NormMembers(ns));
    NormMembersSorted(ms);
    NormMembersSorted(ns);
    if p == q {
      forall m | m in ms ensures HasMember(m, ns) {
        NormMemberIn(ms, m);
        assert Member(m.key, Norm(m.value)) in p;
      }
    }
    if |ms| == |ns| && forall m <- ms :: HasMember(m, ns) {
      forall x | x in p ensures x in q {
        var m := NormMemberOf(ms, x);
      }
      SortedUnique(p, q);
    }
  }

  /** Two values have one sorted form exactly when they are the same JSON value. */
  lemma {:induction false} NormSame(a: Json, b: Json)
    requires IsDict(a) && IsDict(b)
    ensures Norm(a) == Norm(b) <==> Same(a, b)
    decreases a
  {
    if a.Arr? && b.Arr? && |a.items| == |b.items| {
      forall i | 0 <= i < |a.items|
        ensures NormItems(a.items)[i] == NormItems(b.items)[i] <==> Same(a.items[i], b.items[i])
      {
        NormItemsAt(a.items, i);
        NormItemsAt(b.items, i);
        NormSame(a.items[i], b.items[i]);
      }
      if Same(a, b) {
        assert NormItems(a.items) == NormItems(b.items);
      }
    } else if a.Obj? && b.Obj? {
      NormMembersSorted(a.members);
      NormMembersSorted(b.members);
      forall m | m in a.members
        ensures Member(m.key, Norm(m.value)) in NormMembers(b.members) <==> HasMember(m, b.members)
      {
        NormSameMember(m, b.members, a);
      }
      NormSameMembers(a.members, b.members);
    }
  }

  lemma {:induction false} NormSameMember(m: Member, ns: seq<Member>, a: Json)
    requires a.Obj? && m in a.members && IsDict(m.value) && forall n <- ns :: IsDict(n.value)
    ensures Member(m.key, Norm(m.value)) in NormMembers(ns) <==> HasMember(m, ns)
    decreases a, 0
  {
    var target := Member(m.key, Norm(m.value));
    forall i | 0 <= i < |ns|
      ensures NormMembers(ns)[i] == target <==> ns[i].key == m.key && Same(m.value, ns[i].value)
    {
      NormMembersAt(ns, i);
      NormSame(m.value, ns[i].value);
    }
  }

  /** Canonical text does not depend on key order and confuses no two values. */
  lemma CanonicalJsonExact(a: Json, b: Json)
    requires IsDict(a) && IsDict(b)
    ensures CanonicalJson(a) == CanonicalJson(b) <==> Same(a, b)
  {
    NormSame(a, b);
    if CanonicalJson(a) == CanonicalJson(b) {
      PrintUnique(Norm(a), Norm(b), "", "");
    }
  }
}
