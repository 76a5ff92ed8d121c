/**
 Reading JSON text back (RFC 8259, sections 3 to 7, without white space): a reader that
 knows nothing of the printer, and gets every printed value out of its text again.
 */
module JsonReader {
  import opened Text
  import opened Wrappers
  import opened Json

  // ----- Strings -----

  predicate IsHex(c: char) {
    IsDigit(c) || 'a' <= c <= 'f'
  }

  /** The character that stands at the front of a string's text, and what follows it. */
  function ReadChar(t: string): (r: Option<(char, string)>)
    ensures r.Some? ==> |r.value.1| < |t|
  {
    if t == "" || t[0] == '"' || t[0] < ' ' then None
    else if t[0] != '\\' then Some((t[0], t[1..]))
    else if |t| < 2 then None
    else
      match t[1]
      case '"' => Some(('"', t[2..]))
      case '\\' => Some(('\\', t[2..]))
      case '/' => Some(('/', t[2..]))
      case 'b' => Some(('\U{8}', t[2..]))
      case 'f' => Some(('\U{C}', t[2..]))
      case 'n' => Some(('\n', t[2..]))
      case 'r' => Some(('\r', t[2..]))
      case 't' => Some(('\t', t[2..]))
      case 'u' =>
        if |t| >= 6 && t[2..4] == "00" && IsHex(t[4]) && IsHex(t[5]) then
          Some(((16 * HexValue(t[4]) + HexValue(t[5])) as char, t[6..]))
        else None
      case _ => None
  }

  /** A string from behind its opening quote on. */
  function ReadString(t: string): (r: Option<(string, string)>)
    ensures r.Some? ==> |r.value.1| < |t|
    decreases |t|
  {
    if t != "" && t[0] == '"' then Some(("", t[1..]))
    else
      match ReadChar(t)
      case None => None
      case Some((c, after)) =>
        match ReadString(after)
        case None => None
        case Some((s, rest)) => Some(([c] + s, rest))
  }

  lemma RunIsDigits(t: string)
    ensures RunLength(t) <= |t| && AllDigits(t[..RunLength(t)])
  {
    if !NoDigitFirst(t) {
      RunIsDigits(t[1..]);
      assert t[..RunLength(t)] == [t[0]] + t[1..][..RunLength(t[1..])];
    }
  }

  /** A whole number: an optional sign and at least one digit. */
  function ReadNumber(t: string): (r: Option<(int, string)>)
    ensures r.Some? ==> |r.value.1| < |t|
  {
    var negative := t != "" && t[0] == '-';
    var u := if negative then t[1..] else t;
    var n := RunLength(u);
    RunIsDigits(u);
    if n == 0 then None
    else
      var v: int := Value(u[..n]);
      Some((if negative then -v else v, u[n..]))
  }

  // ----- Values -----

  function ReadWord(t: string, word: string, v: Json): (r: Option<(Json, string)>)
    requires word != ""
    ensures r.Some? ==> |r.value.1| < |t|
  {
    if |word| <= |t| && t[..|word|] == word then Some((v, t[|word|..])) else None
  }

  function Read(t: string): (r: Option<(Json, string)>)
    ensures r.Some? ==> |r.value.1| < |t|
    decreases |t|, 1
  {
    if t == "" then None
    else
      match t[0]
      case 'n' => ReadWord(t, "null", Null)
      case 't' => ReadWord(t, "true", Bool(true))
      case 'f' => ReadWord(t, "false", Bool(false))
      case '"' =>
        (match ReadString(t[1..])
         case None => None
         case Some((s, rest)) => Some((Str(s), rest)))
      case '[' =>
        if |t| > 1 && t[1] == ']' then Some((Arr([]), t[2..]))
        else
          (match ReadItems(t[1..])
           case None => None
           case Some((items, rest)) => Some((Arr(items), rest)))
      case '{' =>
        if |t| > 1 && t[1] == '}' then Some((Obj([]), t[2..]))
        else
          (match ReadMembers(t[1..])
           case None => None
           case Some((members, rest)) => Some((Obj(members), rest)))
      case _ =>
        match ReadNumber(t)
        case None => None
        case Some((n, rest)) => Some((Num(n), rest))
  }

  /** Values with commas between them, up to the closing bracket. */
  function ReadItems(t: string): (r: Option<(seq<Json>, string)>)
    ensures r.Some? ==> |r.value.1| < |t|
    decreases |t|, 2
  {
    match Read(t)
    case None => None
    case Some((v, after)) =>
      if after == "" then None
      else if after[0] == ']' then Some(([v], after[1..]))
      else if after[0] != ',' then None
      else
        match ReadItems(after[1..])
        case None => None
        case Some((items, rest)) => Some(([v] + items, rest))
  }

  function ReadMember(t: string): (r: Option<(Member, string)>)
    ensures r.Some? ==> |r.value.1| < |t|
    decreases |t|, 0
  {
    if t == "" || t[0] != '"' then None
    else
      match ReadString(t[1..])
      case None => None
      case Some((key, after)) =>
        if after == "" || after[0] != ':' then None
        else
          match Read(after[1..])
          case None => None
          case Some((v, rest)) => Some((Member(key, v), rest))
  }

  /** Members with commas between them, up to the closing brace. */
  function ReadMembers(t: string): (r: Option<(seq<Member>, string)>)
    ensures r.Some? ==> |r.value.1| < |t|
    decreases |t|, 2
  {
    match ReadMember(t)
    case None => None
    case Some((m, after)) =>
      if after == "" then None
      else if after[0] == '}' then Some(([m], after[1..]))
      else if after[0] != ',' then None
      else
        match ReadMembers(after[1..])
        case None => None
        case Some((members, rest)) => Some(([m] + members, rest))
  }

  // ----- What was printed is read -----

  lemma EscapeRead(c: char, r: string)
    ensures ReadChar(EscapeChar(c) + r) == Some((c, r))
  {
    var e := EscapeChar(c);
    var t := e + r;
    assert t[0] == e[0] && t[|e|..] == r;
    if |e| == 6 {
      assert t[1] == e[1] && t[2..4] == e[2..4] && t[4] == e[4] && t[5] == e[5];
    } else if |e| == 2 {
      assert t[1] == e[1];
    }
  }

  lemma {:induction false} QuoteTailRead(s: string, r: string)
    ensures ReadString(QuoteTail(s, r)) == Some((s, r))
  {
    if s != "" {
      var t := QuoteTail(s[1..], r);
      QuoteTailRead(s[1..], r);
      EscapeRead(s[0], t);
      EscapeHead(s[0], t);
      assert s == [s[0]] + s[1..];
    }
  }

  lemma QuoteRead(s: string, r: string)
    ensures Quote(s, r) != "" && Quote(s, r)[0] == '"' && ReadString(Quote(s, r)[1..]) == Some((s, r))
  {
    QuoteTailRead(s, r);
    assert Quote(s, r)[1..] == QuoteTail(s, r);
  }

  lemma DigitsRead(n: nat, r: string)
    requires NoDigitFirst(r)
    ensures var t := Digits(n) + r;
      RunLength(t) == |Digits(n)| && t[..RunLength(t)] == Digits(n) && t[RunLength(t)..] == r
  {
    RunLengthOf(Digits(n), r);
  }

  lemma NumberRead(n: int, r: string)
    requires NoDigitFirst(r)
    ensures ReadNumber(Decimal(n) + r) == Some((n, r))
  {
    hide Digits, Value, RunLength;
    if n < 0 {
      assert (Decimal(n) + r)[1..] == Digits(-n) + r && (Decimal(n) + r)[0] == '-';
      DigitsRead(-n, r);
      ValueOfDigits(-n);
    } else {
      assert (Decimal(n) + r)[0] == Digits(n)[0];
      DigitsRead(n, r);
      ValueOfDigits(n);
    }
  }

  lemma WordRead(word: string, v: Json, r: string)
    requires word != ""
    ensures ReadWord(word + r, word, v) == Some((v, r))
  {
  }

  /** The reader gets back every value, and what follows it, from its printed text. */
  lemma {:induction false} PrintRead(v: Json, r: string)
    requires Boundary(r)
    ensures Read(Print(v, r)) == Some((v, r))
    decreases v, 0
  {
    match v
    case Null => WordRead("null", v, r);
    case Bool(b) => WordRead(if b then "true" else "false", v, r);
    case Num(n) =>
      PrintHead(v, r);
      NumberRead(n, r);
    case Str(s) => QuoteRead(s, r);
    case Arr(items) => ArrayRead(items, r);
    case Obj(ms) => ObjectRead(ms, r);
  }

  lemma {:induction false} ArrayRead(items: seq<Json>, r: string)
    ensures Read(Print(Arr(items), r)) == Some((Arr(items), r))
    decreases items, 1
  {
    hide ReadItems, ReadMembers, ReadString, ReadNumber, ReadWord, PrintMembers, Quote;
    var t := Print(Arr(items), r);
    if items == [] {
      assert t[2..] == r;
    } else {
      var u := Print(items[0], PrintItems(items[1..], r));
      assert t == ['['] + u && t[1..] == u;
      PrintHead(items[0], PrintItems(items[1..], r));
      ItemsRead(items, r);
    }
  }

  lemma {:induction false} ItemsRead(items: seq<Json>, r: string)
    requires items != []
    ensures ReadItems(Print(items[0], PrintItems(items[1..], r))) == Some((items, r))
    decreases items, 0
  {
    hide Print, Read;
    var after := PrintItems(items[1..], r);
    PrintRead(items[0], after);
    if |items| == 1 {
      assert after == [']'] + r && after[1..] == r && items == [items[0]];
    } else {
      var rest := items[1..];
      assert after == [','] + Print(rest[0], PrintItems(rest[1..], r));
      assert after[1..] == Print(rest[0], PrintItems(rest[1..], r));
      ItemsRead(rest, r);
      assert items == [items[0]] + rest;
    }
  }

  lemma {:induction false} MemberRead(m: Member, r: string)
    requires Boundary(r)
    ensures ReadMember(PrintMember(m, r)) == Some((m, r))
    decreases m, 1
  {
    var after := [':'] + Print(m.value, r);
    QuoteRead(m.key, after);
    assert after[1..] == Print(m.value, r);
    PrintRead(m.value, r);
  }

  lemma {:induction false} ObjectRead(ms: seq<Member>, r: string)
    ensures Read(Print(Obj(ms), r)) == Some((Obj(ms), r))
    decreases ms, 1
  {
    hide ReadItems, ReadMembers, ReadString, ReadNumber, ReadWord, PrintItems;
    var t := Print(Obj(ms), r);
    if ms == [] {
      assert t[2..] == r;
    } else {
      var u := PrintMember(ms[0], PrintMembers(ms[1..], r));
      assert t == ['{'] + u && t[1..] == u && u[0] == '"';
      MembersRead(ms, r);
    }
  }

  lemma {:induction false} MembersRead(ms: seq<Member>, r: string)
    requires ms != []
    ensures ReadMembers(PrintMember(ms[0], PrintMembers(ms[1..], r))) == Some((ms, r))
    decreases ms, 0
  {
    hide PrintMember, ReadMember;
    var after := PrintMembers(ms[1..], r);
    MemberRead(ms[0], after);
    if |ms| == 1 {
      assert after == ['}'] + r && after[1..] == r && ms == [ms[0]];
    } else {
      var rest := ms[1..];
      assert after == [','] + PrintMember(rest[0], PrintMembers(rest[1..], r));
      assert after[1..] == PrintMember(rest[0], PrintMembers(rest[1..], r));
      MembersRead(rest, r);
      assert ms == [ms[0]] + rest;
    }
  }

  /** Sorting its dicts leaves a value the same. */
  lemma {:induction false} SameNorm(v: Json)
    requires IsDict(v)
    ensures Same(v, Norm(v))
    decreases v
  {
    if v.Arr? {
      forall i | 0 <= i < |v.items| ensures Same(v.items[i], NormItems(v.items)[i]) {
        NormItemsAt(v.items, i);
        SameNorm(v.items[i]);
      }
    } else if v.Obj? {
      var sorted := SortMembers(NormMembers(v.members));
      NormMembersSorted(v.members);
      forall m | m in v.members ensures HasMember(m, sorted) {
        NormMemberIn(v.members, m);
        assert Member(m.key, Norm(m.value)) in sorted;
        SameNorm(m.value);
      }
    }
  }

  /** The canonical text of a value reads back as that value, its dicts in key order, with nothing left over. */
  lemma CanonicalRead(v: Json)
    requires IsDict(v)
    ensures Read(CanonicalJson(v)) == Some((Norm(v), "")) && Same(v, Norm(v))
  {
    PrintRead(Norm(v), "");
    SameNorm(v);
  }
}
