/** JSON texts as RFC 8259 defines them: a value tree, a parser, and a compact printer that the
    parser inverts. */
module Json {
  import opened Entities
  import opened Numerals

  /** A number keeps its digits: sign, whole part, fraction and exponent. */
  datatype Number = Number(neg: bool, whole: string, frac: string, exp: Option<(bool, string)>)

  datatype Json =
    | JNull
    | JBool(b: bool)
    | JNum(n: Number)
    | JStr(s: string)
    | JArr(items: seq<Json>)
    | JObj(members: seq<Member>)

  datatype Member = Member(key: string, value: Json)

  // ---- The parser ----

  predicate IsSpace(c: char) {
    c == ' ' || c == '\t' || c == '\n' || c == '\r'
  }

  /** Insignificant whitespace, section 2. */
  function Skip(s: string): (r: string)
    ensures |r| <= |s|
  {
    if s != "" && IsSpace(s[0]) then Skip(s[1..]) else s
  }

  function TakeDigits(s: string): (r: (string, string))
    ensures |r.0| + |r.1| == |s|
  {
    if s != "" && IsDigit(s[0]) then
      var (ds, rest) := TakeDigits(s[1..]);
      ([s[0]] + ds, rest)
    else ("", s)
  }

  /** Numbers, section 6. */
  function ParseNumber(s: string): (r: Option<(Number, string)>)
    ensures r.Some? ==> |r.value.1| < |s|
  {
    var neg := s != "" && s[0] == '-';
    var (whole, t) := TakeDigits(if neg then s[1..] else s);
    if whole == "" || (whole[0] == '0' && |whole| > 1) then None
    else
      var dot := t != "" && t[0] == '.';
      var (frac, u) := if dot then TakeDigits(t[1..]) else ("", t);
      if dot && frac == "" then None
      else if u != "" && (u[0] == 'e' || u[0] == 'E') then
        var v := u[1..];
        var signed := v != "" && (v[0] == '+' || v[0] == '-');
        var (exp, w) := TakeDigits(if signed then v[1..] else v);
        if exp == "" then None else Some((Number(neg, whole, frac, Some((signed && v[0] == '-', exp))), w))
      else Some((Number(neg, whole, frac, None), u))
  }

  function Hex4(s: string): Option<int> {
    if |s| < 4 || (exists i :: 0 <= i < 4 && DigitValue(s[i], 16) < 0) then None
    else Some(Value(s[..4], 16))
  }

  /** The escapes of section 7, after the backslash; a lone surrogate is no character. */
  function ParseEscape(s: string): (r: Option<(char, string)>)
    ensures r.Some? ==> |r.value.1| < |s|
  {
    if s == "" then None
    else if s[0] == '"' || s[0] == '\\' || s[0] == '/' then Some((s[0], s[1..]))
    else if s[0] == 'b' then Some((8 as char, s[1..]))
    else if s[0] == 'f' then Some((12 as char, s[1..]))
    else if s[0] == 'n' then Some(('\n', s[1..]))
    else if s[0] == 'r' then Some(('\r', s[1..]))
    else if s[0] == 't' then Some(('\t', s[1..]))
    else if s[0] == 'u' then
      match Hex4(s[1..])
      case None => None
      case Some(v) =>
        if 0 <= v < 0xD800 || 0xE000 <= v < 0x1_0000 then Some((v as char, s[5..]))
        else if |s| >= 11 && s[5] == '\\' && s[6] == 'u' then
          match Hex4(s[7..])
          case None => None
          case Some(w) =>
            var c := 0x1_0000 + (v - 0xD800) * 0x400 + (w - 0xDC00);
            if 0xD800 <= v < 0xDC00 && 0xDC00 <= w < 0xE000 then Some((c as char, s[11..])) else None
        else None
    else None
  }

  /** The characters of a string up to the closing quote, section 7. */
  function ParseChars(s: string): (r: Option<(string, string)>)
    ensures r.Some? ==> |r.value.0| + 1 + |r.value.1| <= |s|
    decreases |s|
  {
    if s == "" || s[0] < ' ' then None
    else if s[0] == '"' then Some(("", s[1..]))
    else if s[0] == '\\' then
      match ParseEscape(s[1..])
      case None => None
      case Some((c, t)) =>
        (match ParseChars(t)
         case None => None
         case Some((cs, rest)) => Some(([c] + cs, rest)))
    else
      match ParseChars(s[1..])
      case None => None
      case Some((cs, rest)) => Some(([s[0]] + cs, rest))
  }

  predicate StartsWith(s: string, w: string) {
    w <= s
  }

  /** Values, section 3. */
  function ParseValue(s: string): (r: Option<(Json, string)>)
    ensures r.Some? ==> |r.value.1| < |s|
    decreases |s|, 0
  {
    var t := Skip(s);
    if t == "" then None
    else if t[0] == '{' then
      var u := Skip(t[1..]);
      if u != "" && u[0] == '}' then Some((JObj([]), u[1..]))
      else (match ParseMembers(t[1..]) case None => None case Some((ms, rest)) => Some((JObj(ms), rest)))
    else if t[0] == '[' then
      var u := Skip(t[1..]);
      if u != "" && u[0] == ']' then Some((JArr([]), u[1..]))
      else (match ParseItems(t[1..]) case None => None case Some((vs, rest)) => Some((JArr(vs), rest)))
    else if t[0] == '"' then
      (match ParseChars(t[1..]) case None => None case Some((cs, rest)) => Some((JStr(cs), rest)))
    else if StartsWith(t, "null") then Some((JNull, t[4..]))
    else if StartsWith(t, "true") then Some((JBool(true), t[4..]))
    else if StartsWith(t, "false") then Some((JBool(false), t[5..]))
    else (match ParseNumber(t) case None => None case Some((n, rest)) => Some((JNum(n), rest)))
  }

  /** The elements of a non-empty array, section 5. */
  function ParseItems(s: string): (r: Option<(seq<Json>, string)>)
    ensures r.Some? ==> |r.value.1| < |s|
    decreases |s|, 1
  {
    match ParseValue(s)
    case None => None
    case Some((v, rest)) =>
      var t := Skip(rest);
      if t != "" && t[0] == ']' then Some(([v], t[1..]))
      else if t != "" && t[0] == ',' then
        (match ParseItems(t[1..]) case None => None case Some((vs, r)) => Some(([v] + vs, r)))
      else None
  }

  /** The members of a non-empty object, section 4. */
  function ParseMembers(s: string): (r: Option<(seq<Member>, string)>)
    ensures r.Some? ==> |r.value.1| < |s|
    decreases |s|, 1
  {
    var t := Skip(s);
    if t == "" || t[0] != '"' then None
    else match ParseChars(t[1..])
      case None => None
      case Some((key, afterKey)) =>
        var u := Skip(afterKey);
        if u == "" || u[0] != ':' then None
        else match ParseValue(u[1..])
          case None => None
          case Some((v, rest)) =>
            var w := Skip(rest);
            if w != "" && w[0] == '}' then Some(([Member(key, v)], w[1..]))
            else if w != "" && w[0] == ',' then
              (match ParseMembers(w[1..]) case None => None case Some((ms, r)) => Some(([Member(key, v)] + ms, r)))
            else None
  }

  /** A JSON text, section 2: one value between optional whitespace. */
  function ParseText(s: string): Option<Json> {
    match ParseValue(s)
    case None => None
    case Some((v, rest)) => if Skip(rest) == "" then Some(v) else None
  }

  // ---- The printer: every function puts its value in front of the text that follows ----

  function PutChars(s: string, k: string): string {
    "\"" + (s + ("\"" + k))
  }

  function PutNumber(n: Number, k: string): string {
    (if n.neg then "-" else "") + (n.whole + if n.frac == "" then k else "." + (n.frac + k))
  }

  function PutValue(j: Json, k: string): string
    decreases j, 0
  {
    match j
    case JNull => "null" + k
    case JBool(b) => (if b then "true" else "false") + k
    case JNum(n) => PutNumber(n, k)
    case JStr(s) => PutChars(s, k)
    case JArr(items) => "[" + if items == [] then "]" + k else PutItems(items, k)
    case JObj(members) => "{" + if members == [] then "}" + k else PutMembers(members, k)
  }

  function PutItems(items: seq<Json>, k: string): string
    requires items != []
    decreases items, 1
  {
    PutValue(items[0], if |items| == 1 then "]" + k else "," + PutItems(items[1..], k))
  }

  function PutMembers(members: seq<Member>, k: string): string
    requires members != []
    decreases members, 1
  {
    PutChars(members[0].key, ":" + PutValue(members[0].value, if |members| == 1 then "}" + k else "," + PutMembers(members[1..], k)))
  }

  // ---- The parser inverts the printer ----

  /** Strings that stand for themselves between quotes. */
  predicate Clean(s: string) {
    forall i :: 0 <= i < |s| ==> s[i] >= ' ' && s[i] != '"' && s[i] != '\\'
  }

  predicate DigitString(s: string) {
    forall i :: 0 <= i < |s| ==> IsDigit(s[i])
  }

  predicate PlainNumber(n: Number) {
    DigitString(n.whole) && DigitString(n.frac) && n.whole != "" && (n.whole[0] == '0' ==> |n.whole| == 1) && n.exp.None?
  }

  ghost predicate Printable(j: Json)
    decreases j
  {
    match j
    case JNull => true
    case JBool(_) => true
    case JNum(n) => PlainNumber(n)
    case JStr(s) => Clean(s)
    case JArr(items) => forall v :: v in items ==> Printable(v)
    case JObj(members) => forall m :: m in members ==> Clean(m.key) && Printable(m.value)
  }

  /** What may follow a value: the end, or a character that ends a number. */
  predicate Ends(k: string) {
    k == "" || k[0] == ',' || k[0] == ']' || k[0] == '}'
  }

  lemma {:induction false} CharsRoundTrip(s: string, k: string)
    requires Clean(s)
    ensures ParseChars(s + ("\"" + k)) == Some((s, k))
  {
    var t := s + ("\"" + k);
    if s == "" {
      assert t == "\"" + k;
      assert t[1..] == k;
    } else {
      assert t[1..] == s[1..] + ("\"" + k);
      CharsRoundTrip(s[1..], k);
      assert [s[0]] + s[1..] == s;
    }
  }

  /** A parse that consumes no more characters than it returns met no escape: the string was clean. */
  lemma {:induction false} TightParseIsClean(t: string)
    requires ParseChars(t).Some?
    requires var (cs, rest) := ParseChars(t).value; |cs| + 1 + |rest| == |t|
    ensures Clean(ParseChars(t).value.0)
    decreases |t|
  {
    if t[0] == '\\' {
      assert false;
    } else if t[0] != '"' {
      TightParseIsClean(t[1..]);
    }
  }

  /** Quoting a string as it is round-trips exactly for the clean strings, whatever follows. */
  lemma QuotingIsExact(s: string, k: string)
    ensures ParseChars(s + ("\"" + k)) == Some((s, k)) <==> Clean(s)
  {
    if Clean(s) {
      CharsRoundTrip(s, k);
    }
    if ParseChars(s + ("\"" + k)) == Some((s, k)) {
      TightParseIsClean(s + ("\"" + k));
    }
  }

  lemma {:induction false} DigitsRead(ds: string, k: string)
    requires DigitString(ds) && (k == "" || !IsDigit(k[0]))
    ensures TakeDigits(ds + k) == (ds, k)
  {
    if ds == "" {
      assert ds + k == k;
    } else {
      assert (ds + k)[1..] == ds[1..] + k;
      DigitsRead(ds[1..], k);
      assert [ds[0]] + ds[1..] == ds;
    }
  }

  lemma FracRead(n: Number, k: string)
    requires PlainNumber(n) && Ends(k)
    ensures var tail := if n.frac == "" then k else "." + (n.frac + k);
      TakeDigits(n.whole + tail) == (n.whole, tail) && (n.frac != "" ==> TakeDigits(tail[1..]) == (n.frac, k))
  {
    hide TakeDigits;
    var tail := if n.frac == "" then k else "." + (n.frac + k);
    DigitsRead(n.whole, tail);
    if n.frac != "" {
      DigitsRead(n.frac, k);
      assert tail[1..] == n.frac + k;
    }
  }

  lemma NumberSign(n: Number, k: string)
    requires PlainNumber(n)
    ensures var t := PutNumber(n, k);
      && t != "" && (t[0] == '-' <==> n.neg)
      && (if n.neg then t[1..] else t) == n.whole + if n.frac == "" then k else "." + (n.frac + k)
  {
    var body := n.whole + if n.frac == "" then k else "." + (n.frac + k);
    assert ("-" + body)[1..] == body && "" + body == body;
    assert IsDigit(n.whole[0]);
  }

  lemma NumberRoundTrip(n: Number, k: string)
    requires PlainNumber(n) && Ends(k)
    ensures ParseNumber(PutNumber(n, k)) == Some((n, k))
  {
    hide TakeDigits;
    hide PutNumber;
    hide DigitString;
    FracRead(n, k);
    NumberSign(n, k);
    assert n.frac != "" ==> ("." + (n.frac + k))[0] == '.';
  }

  lemma PutValueStarts(j: Json, k: string)
    requires Printable(j)
    ensures var t := PutValue(j, k);
      t != "" && Skip(t) == t && t[0] != ']' && t[0] != '}' && !Ends(t)
  {
    match j
    case JNum(n) => assert IsDigit(n.whole[0]);
    case _ =>
  }

  lemma LiteralRoundTrip(j: Json, k: string)
    requires j.JNull? || j.JBool?
    ensures ParseValue(PutValue(j, k)) == Some((j, k))
  {
    hide ParseNumber;
    hide ParseChars;
    hide ParseItems;
    hide ParseMembers;
    var t := PutValue(j, k);
    match j
    case JNull => assert t[4..] == k;
    case JBool(b) => assert t[if b then 4 else 5..] == k;
  }

  lemma PlainRoundTrip(j: Json, k: string)
    requires (j.JNum? || j.JStr?) && Printable(j) && Ends(k)
    ensures ParseValue(PutValue(j, k)) == Some((j, k))
  {
    hide ParseNumber;
    hide PutNumber;
    hide ParseChars;
    hide ParseItems;
    hide ParseMembers;
    hide StartsWith;
    var t := PutValue(j, k);
    PutValueStarts(j, k);
    match j
    case JNum(n) => NumberStarts(n, k); NumberRoundTrip(n, k);
    case JStr(s) => CharsRoundTrip(s, k); StringStarts(t); assert t[1..] == s + ("\"" + k);
  }

  lemma StringStarts(t: string)
    ensures t != "" && t[0] in "\"[{" ==> !StartsWith(t, "null") && !StartsWith(t, "true") && !StartsWith(t, "false")
  {
    StartsAlike(t, "null");
    StartsAlike(t, "true");
    StartsAlike(t, "false");
  }

  /** An array whose elements can be read back. */
  lemma ArrayRoundTrip(items: seq<Json>, k: string)
    requires items == [] || (Printable(items[0]) && ParseItems(PutItems(items, k)) == Some((items, k)))
    ensures ParseValue(PutValue(JArr(items), k)) == Some((JArr(items), k))
  {
    hide ParseNumber;
    hide ParseChars;
    hide ParseItems;
    hide ParseMembers;
    hide StartsWith;
    var t := PutValue(JArr(items), k);
    StringStarts(t);
    if items == [] {
      assert t[1..] == "]" + k;
      assert ("]" + k)[1..] == k;
    } else {
      assert t[1..] == PutItems(items, k);
      PutValueStarts(items[0], if |items| == 1 then "]" + k else "," + PutItems(items[1..], k));
    }
  }

  /** An object whose members can be read back. */
  lemma ObjectRoundTrip(members: seq<Member>, k: string)
    requires members == [] || ParseMembers(PutMembers(members, k)) == Some((members, k))
    ensures ParseValue(PutValue(JObj(members), k)) == Some((JObj(members), k))
  {
    hide ParseNumber;
    hide ParseChars;
    hide ParseItems;
    hide ParseMembers;
    hide StartsWith;
    var t := PutValue(JObj(members), k);
    StringStarts(t);
    if members == [] {
      assert t[1..] == "}" + k;
      assert ("}" + k)[1..] == k;
    } else {
      assert t[1..] == PutMembers(members, k);
    }
  }

  /** Parsing what was printed gives the value back and leaves what follows. */
  lemma {:induction false} ValueRoundTrip(j: Json, k: string)
    requires Printable(j) && Ends(k)
    ensures ParseValue(PutValue(j, k)) == Some((j, k))
    decreases j, 0
  {
    hide ParseValue;
    hide PutValue;
    hide Ends;
    match j
    case JNull => LiteralRoundTrip(j, k);
    case JBool(_) => LiteralRoundTrip(j, k);
    case JNum(_) => PlainRoundTrip(j, k);
    case JStr(_) => PlainRoundTrip(j, k);
    case JArr(items) =>
      if items != [] {
        ItemsRoundTrip(items, k);
      }
      ArrayRoundTrip(items, k);
    case JObj(members) =>
      if members != [] {
        MembersRoundTrip(members, k);
      }
      ObjectRoundTrip(members, k);
  }

  lemma NumberStarts(n: Number, k: string)
    requires PlainNumber(n)
    ensures var t := PutNumber(n, k);
      t != "" && (t[0] == '-' || IsDigit(t[0])) && !StartsWith(t, "null") && !StartsWith(t, "true") && !StartsWith(t, "false")
  {
    var t := PutNumber(n, k);
    assert IsDigit(n.whole[0]);
    StartsAlike(t, "null");
    StartsAlike(t, "true");
    StartsAlike(t, "false");
  }

  lemma StartsAlike(s: string, w: string)
    ensures StartsWith(s, w) && w != "" ==> s != "" && s[0] == w[0]
  {
  }

  lemma {:induction false} ItemsRoundTrip(items: seq<Json>, k: string)
    requires items != [] && forall v :: v in items ==> Printable(v)
    ensures ParseItems(PutItems(items, k)) == Some((items, k))
    decreases items, 1
  {
    hide ParseValue;
    hide PutValue;
    hide Printable;
    if |items| == 1 {
      ValueRoundTrip(items[0], "]" + k);
      assert ("]" + k)[1..] == k;
      assert [items[0]] == items;
    } else {
      var more := PutItems(items[1..], k);
      ValueRoundTrip(items[0], "," + more);
      assert ("," + more)[1..] == more;
      ItemsRoundTrip(items[1..], k);
      assert [items[0]] + items[1..] == items;
    }
  }

  lemma OneMember(key: string, v: Json, next: string)
    requires Clean(key) && ParseValue(PutValue(v, next)) == Some((v, next))
    requires next != "" && (next[0] == '}' || next[0] == ',')
    ensures ParseMembers(PutChars(key, ":" + PutValue(v, next))) ==
      if next[0] == '}' then Some(([Member(key, v)], next[1..]))
      else match ParseMembers(next[1..])
        case None => None
        case Some((ms, r)) => Some(([Member(key, v)] + ms, r))
  {
    hide PutValue;
    hide ParseValue;
    var afterKey := ":" + PutValue(v, next);
    CharsRoundTrip(key, afterKey);
    hide ParseChars;
    assert PutChars(key, afterKey)[1..] == key + ("\"" + afterKey);
    assert afterKey[1..] == PutValue(v, next);
  }

  lemma {:induction false} MembersRoundTrip(members: seq<Member>, k: string)
    requires members != [] && forall m :: m in members ==> Clean(m.key) && Printable(m.value)
    ensures ParseMembers(PutMembers(members, k)) == Some((members, k))
    decreases members, 1
  {
    hide ParseValue;
    hide ParseMembers;
    hide PutValue;
    hide PutChars;
    var m := members[0];
    assert m in members;
    if |members| == 1 {
      ValueRoundTrip(m.value, "}" + k);
      OneMember(m.key, m.value, "}" + k);
      assert ("}" + k)[1..] == k;
      assert [m] == members;
    } else {
      var more := PutMembers(members[1..], k);
      ValueRoundTrip(m.value, "," + more);
      OneMember(m.key, m.value, "," + more);
      assert ("," + more)[1..] == more;
      MembersRoundTrip(members[1..], k);
      assert [m] + members[1..] == members;
    }
  }

  lemma TextRoundTrip(j: Json)
    requires Printable(j)
    ensures ParseText(PutValue(j, "")) == Some(j)
  {
    ValueRoundTrip(j, "");
  }
}
