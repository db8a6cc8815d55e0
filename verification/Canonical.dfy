/** The canonical JSON encoder that feeds the audit hash chain
    (audit-service hasher.go), its exact decoder and their round trip.

Number leaves carry the lexeme strconv produced. Strings are valid Unicode. */
module Canonical {
  import opened Json
  import opened StringOrder

  type Tree = Json<string>

  // ---------------------------------------------------------------- strings

  /** Lower-case hexadecimal digit. */
  function HexChar(d: nat): char
    requires d < 16
  {
    if d < 10 then '0' + d as char else 'a' + (d - 10) as char
  }

  function HexValue(c: char): Option<nat>
  {
    if '0' <= c <= '9' then Some((c - '0') as nat)
    else if 'a' <= c <= 'f' then Some((c - 'a') as nat + 10)
    else None
  }

  function EscapeRune(c: char): (s: string)
    ensures s != []
  {
    if c == '"' then ['\\', '"']
    else if c == '\\' then ['\\', '\\']
    else if c == '\n' then ['\\', 'n']
    else if c == '\r' then ['\\', 'r']
    else if c == '\t' then ['\\', 't']
    else if c == 8 as char then ['\\', 'b']
    else if c == 12 as char then ['\\', 'f']
    else if c < ' ' then ['\\', 'u', '0', '0', HexChar(c as int / 16), HexChar(c as int % 16)]
    else [c]
  }

  /** Quotes, backslashes and five control characters get a letter, the other characters below
      a blank two lower-case hexadecimal digits, and all others stay as they are. */
  lemma EscapesExactly(c: char)
    ensures c == '"' ==> EscapeRune(c) == "\\\""
    ensures c == '\\' ==> EscapeRune(c) == "\\\\"
    ensures c == '\n' ==> EscapeRune(c) == "\\n"
    ensures c == '\r' ==> EscapeRune(c) == "\\r"
    ensures c == '\t' ==> EscapeRune(c) == "\\t"
    ensures c as int == 8 ==> EscapeRune(c) == "\\b"
    ensures c as int == 12 ==> EscapeRune(c) == "\\f"
    ensures c as int < 32 && c !in "\n\r\t" && c as int != 8 && c as int != 12 ==>
              var s := EscapeRune(c);
              && |s| == 6 && s[..4] == "\\u00" && HexValue(s[4]).Some? && HexValue(s[5]).Some?
              && 16 * HexValue(s[4]).value + HexValue(s[5]).value == c as int
    ensures c as int >= 32 && c != '"' && c != '\\' ==> EscapeRune(c) == [c]
  {
  }

  function EscapeFrom(s: string, i: nat): string
    requires i <= |s|
    decreases |s| - i
  {
    if i == |s| then "" else EscapeRune(s[i]) + EscapeFrom(s, i + 1)
  }

  function EncodeString(s: string): string
  {
    "\"" + EscapeFrom(s, 0) + "\""
  }

  // ---------------------------------------------------------------- values

  ghost function Encode(v: Tree): string
    decreases v, 1
  {
    match v
    case Null => "null"
    case Bool(b) => if b then "true" else "false"
    case Str(s) => EncodeString(s)
    case Num(lexeme) => lexeme
    case Arr(a) => "[" + EncodeElems(v, 0) + "]"
    case Obj(m) => "{" + EncodeFields(v, Sorted(m.Keys), 0) + "}"
  }

  function Comma(i: nat): string
  {
    if i > 0 then "," else ""
  }

  /** Array elements i.. with their separators. */
  ghost function EncodeElems(v: Tree, i: nat): string
    requires v.Arr? && i <= |v.elems|
    decreases v, 0, |v.elems| - i
  {
    if i == |v.elems| then ""
    else Comma(i) + Encode(v.elems[i]) + EncodeElems(v, i + 1)
  }

  /** Object fields for keys i.. with their separators. */
  ghost function EncodeFields(v: Tree, keys: seq<string>, i: nat): string
    requires v.Obj? && i <= |keys| && forall k :: k in keys ==> k in v.fields
    decreases v, 0, |keys| - i
  {
    if i == |keys| then ""
    else Comma(i) + EncodeField(v, keys[i]) + EncodeFields(v, keys, i + 1)
  }

  ghost function EncodeField(v: Tree, k: string): string
    requires v.Obj? && k in v.fields
    decreases v, 0, 0
  {
    EncodeString(k) + ":" + Encode(v.fields[k])
  }

  // ------------------------------------------- the encoder as a builder program

  class Builder {
    var text: string

    constructor ()
      ensures text == ""
    {
      text := "";
    }

    method Write(s: string)
      modifies this
      ensures text == old(text) + s
    {
      text := text + s;
    }
  }

  lemma Assoc(a: string, b: string, c: string)
    ensures (a + b) + c == a + (b + c)
  {
  }

  lemma Bracketed(t: string, open: string, body: string, close: string)
    ensures t + open + body + close == t + (open + body + close)
  {
  }

  method WriteString(w: Builder, s: string)
    modifies w
    ensures w.text == old(w.text) + EncodeString(s)
  {
    w.Write("\"");
    ghost var goal := w.text + EscapeFrom(s, 0);
    var i := 0;
    while i < |s|
      invariant 0 <= i <= |s|
      invariant w.text + EscapeFrom(s, i) == goal
    {
      Assoc(w.text, EscapeRune(s[i]), EscapeFrom(s, i + 1));
      w.Write(EscapeRune(s[i]));
      i := i + 1;
    }
    Bracketed(old(w.text), "\"", EscapeFrom(s, 0), "\"");
    w.Write("\"");
  }

  method WriteValue(w: Builder, v: Tree)
    modifies w
    ensures w.text == old(w.text) + Encode(v)
    decreases v, 1
  {
    match v
    case Null => w.Write("null");
    case Bool(b) => w.Write(if b then "true" else "false");
    case Str(s) => WriteString(w, s);
    case Num(lexeme) => w.Write(lexeme);
    case Arr(_) => WriteArray(w, v);
    case Obj(_) => WriteObject(w, v);
  }

  method WriteArray(w: Builder, v: Tree)
    requires v.Arr?
    modifies w
    ensures w.text == old(w.text) + Encode(v)
    decreases v, 0
  {
    w.Write("[");
    ghost var goal := w.text + EncodeElems(v, 0);
    var i := 0;
    while i < |v.elems|
      invariant 0 <= i <= |v.elems|
      invariant w.text + EncodeElems(v, i) == goal
    {
      ghost var val := Encode(v.elems[i]);
      Assoc(w.text, Comma(i) + val, EncodeElems(v, i + 1));
      Assoc(w.text, Comma(i), val);
      w.Write(Comma(i));
      WriteValue(w, v.elems[i]);
      i := i + 1;
    }
    Bracketed(old(w.text), "[", EncodeElems(v, 0), "]");
    w.Write("]");
  }

  method WriteField(w: Builder, v: Tree, k: string)
    requires v.Obj? && k in v.fields
    modifies w
    ensures w.text == old(w.text) + EncodeField(v, k)
    decreases v, 0, 0
  {
    WriteString(w, k);
    w.Write(":");
    WriteValue(w, v.fields[k]);
    Bracketed(old(w.text), EncodeString(k), ":", Encode(v.fields[k]));
  }

  method WriteObject(w: Builder, v: Tree)
    requires v.Obj?
    modifies w
    ensures w.text == old(w.text) + Encode(v)
    decreases v, 0
  {
    var keys := StringOrder.SortedKeys(v.fields);
    w.Write("{");
    ghost var goal := w.text + EncodeFields(v, keys, 0);
    var i := 0;
    while i < |keys|
      invariant 0 <= i <= |keys|
      invariant w.text + EncodeFields(v, keys, i) == goal
    {
      ghost var field := EncodeField(v, keys[i]);
      Assoc(w.text, Comma(i) + field, EncodeFields(v, keys, i + 1));
      Assoc(w.text, Comma(i), field);
      w.Write(Comma(i));
      WriteField(w, v, keys[i]);
      i := i + 1;
    }
    Bracketed(old(w.text), "{", EncodeFields(v, keys, 0), "}");
    w.Write("}");
  }

  // ---------------------------------------------------------------- key order

  /** The text up to the field at i. */
  lemma {:induction false} FieldsSplit(v: Tree, keys: seq<string>, from: nat, i: nat) returns (a: string)
    requires v.Obj? && from <= i < |keys| && forall k :: k in keys ==> k in v.fields
    ensures EncodeFields(v, keys, from) == a + (EncodeField(v, keys[i]) + EncodeFields(v, keys, i + 1))
    decreases i - from
  {
    if from == i {
      a := Comma(i);
      Assoc(Comma(i), EncodeField(v, keys[i]), EncodeFields(v, keys, i + 1));
    } else {
      var b := FieldsSplit(v, keys, from + 1, i);
      a := Comma(from) + EncodeField(v, keys[from]) + b;
      Assoc(Comma(from) + EncodeField(v, keys[from]), b, EncodeField(v, keys[i]) + EncodeFields(v, keys, i + 1));
    }
  }

  /** Of two keys of an object, the one that comes first in the dictionary is written first. */
  lemma KeysInDictionaryOrder(v: Tree, p: string, q: string) returns (a: string, b: string, c: string)
    requires v.Obj? && p in v.fields && q in v.fields && StringOrder.Precedes(p, q)
    ensures Encode(v) == a + (EncodeField(v, p) + (b + (EncodeField(v, q) + c)))
  {
    var keys := Sorted(v.fields.Keys);
    var i, j := PositionsInOrder(v.fields.Keys, p, q);
    a := FieldsSplit(v, keys, 0, i);
    b := FieldsSplit(v, keys, i + 1, j);
    c := EncodeFields(v, keys, j + 1);
    Wrapped(a, EncodeField(v, p), b, EncodeField(v, q), c);
    a := "{" + a;
    c := c + "}";
  }

  lemma Wrapped(a: string, f: string, b: string, g: string, c: string)
    ensures "{" + (a + (f + (b + (g + c)))) + "}" == ("{" + a) + (f + (b + (g + (c + "}"))))
  {
  }

  lemma PositionsInOrder(keys: set<string>, p: string, q: string) returns (i: nat, j: nat)
    requires p in keys && q in keys && StringOrder.Precedes(p, q)
    ensures i < j < |Sorted(keys)| && Sorted(keys)[i] == p && Sorted(keys)[j] == q
  {
    var s := Sorted(keys);
    assert p in s && q in s;
    i :| 0 <= i < |s| && s[i] == p;
    j :| 0 <= j < |s| && s[j] == q;
    StringOrder.LessIsDictionary(p, q);
    StringOrder.Irreflexive(p);
    if j < i {
      StringOrder.Transitive(p, q, p);
    }
  }

  // ---------------------------------------------------------------- decoder

  /** One rune of a string body and the number of characters it took. Raw control
      characters, long forms of short escapes and upper-case hex are rejected. */
  function DecodeRune(s: string): (r: Option<(char, nat)>)
    ensures r.Some? ==> 0 < r.value.1 <= |s|
  {
    if s == [] || s[0] == '"' || s[0] < ' ' then None
    else if s[0] != '\\' then Some((s[0], 1))
    else if |s| < 2 then None
    else
      match s[1]
      case '"' => Some(('"', 2))
      case '\\' => Some(('\\', 2))
      case 'n' => Some(('\n', 2))
      case 'r' => Some(('\r', 2))
      case 't' => Some(('\t', 2))
      case 'b' => Some((8 as char, 2))
      case 'f' => Some((12 as char, 2))
      case 'u' => if |s| < 6 then None else DecodeControl(s)
      case _ => None
  }

  /** \u00XY for the control characters that have no short form. */
  /** The control characters with an escape of their own. */
  predicate ShortControl(c: char)
  {
    c == '\n' || c == '\r' || c == '\t' || c == 8 as char || c == 12 as char
  }

  function DecodeControl(s: string): (r: Option<(char, nat)>)
    requires |s| >= 6
    ensures r.Some? ==> r.value.1 == 6
  {
    var hi, lo := HexValue(s[4]), HexValue(s[5]);
    if s[2] != '0' || s[3] != '0' || hi.None? || lo.None? || hi.value > 1 then None
    else
      var c := (16 * hi.value + lo.value) as char;
      if ShortControl(c) then None else Some((c, 6))
  }

  /** A string body up to and including its closing quote. */
  function DecodeRunes(s: string): (r: Option<(string, string)>)
    ensures r.Some? ==> |r.value.1| < |s|
    decreases |s|
  {
    if s == [] then None
    else if s[0] == '"' then Some(("", s[1..]))
    else
      match DecodeRune(s)
      case None => None
      case Some((c, n)) =>
        match DecodeRunes(s[n..])
        case None => None
        case Some((t, rest)) => Some(([c] + t, rest))
  }

  predicate IsNumChar(c: char)
  {
    '0' <= c <= '9' || c == '+' || c == '-' || c == '.' || c == 'e' || c == 'E'
  }

  predicate IsLexeme(s: string)
  {
    s != [] && forall i :: 0 <= i < |s| ==> IsNumChar(s[i])
  }

  /** Length of the longest run of number characters. */
  function NumberLength(s: string): (n: nat)
    ensures n <= |s|
  {
    if s == [] || !IsNumChar(s[0]) then 0 else 1 + NumberLength(s[1..])
  }

  ghost function Decode(s: string): (r: Option<(Tree, string)>)
    ensures r.Some? ==> |r.value.1| < |s|
    decreases |s|, 0
  {
    if s == [] then None
    else if s[0] == '"' then
      match DecodeRunes(s[1..])
      case None => None
      case Some((t, rest)) => Some((Str(t), rest))
    else if s[0] == '[' then
      if |s| > 1 && s[1] == ']' then Some((Arr([]), s[2..]))
      else
        match DecodeElems(s[1..])
        case None => None
        case Some((a, rest)) => Some((Arr(a), rest))
    else if s[0] == '{' then
      if |s| > 1 && s[1] == '}' then Some((Obj(map[]), s[2..]))
      else
        match DecodeFields(s[1..])
        case None => None
        case Some((fields, rest)) =>
          if Ascending(KeysOf(fields)) then Some((Obj(FromPairs(fields)), rest)) else None
    else if "null" <= s then Some((Null, s[4..]))
    else if "true" <= s then Some((Bool(true), s[4..]))
    else if "false" <= s then Some((Bool(false), s[5..]))
    else
      var n := NumberLength(s);
      if n == 0 then None else Some((Num(s[..n]), s[n..]))
  }

  /** One or more elements and the closing bracket. */
  ghost function DecodeElems(s: string): (r: Option<(seq<Tree>, string)>)
    ensures r.Some? ==> |r.value.1| < |s|
    decreases |s|, 1
  {
    match Decode(s)
    case None => None
    case Some((v, rest)) =>
      if rest == [] then None
      else if rest[0] == ']' then Some(([v], rest[1..]))
      else if rest[0] != ',' then None
      else
        match DecodeElems(rest[1..])
        case None => None
        case Some((a, rest')) => Some(([v] + a, rest'))
  }

  /** One or more fields and the closing brace. */
  ghost function DecodeFields(s: string): (r: Option<(seq<(string, Tree)>, string)>)
    ensures r.Some? ==> |r.value.1| < |s|
    decreases |s|, 1
  {
    match DecodeField(s)
    case None => None
    case Some((f, rest)) =>
      if rest == [] then None
      else if rest[0] == '}' then Some(([f], rest[1..]))
      else if rest[0] != ',' then None
      else
        match DecodeFields(rest[1..])
        case None => None
        case Some((fs, rest')) => Some(([f] + fs, rest'))
  }

  ghost function DecodeField(s: string): (r: Option<((string, Tree), string)>)
    ensures r.Some? ==> |r.value.1| < |s|
    decreases |s|, 0
  {
    if s == [] || s[0] != '"' then None
    else
      match DecodeRunes(s[1..])
      case None => None
      case Some((k, rest)) =>
        if rest == [] || rest[0] != ':' then None
        else
          match Decode(rest[1..])
          case None => None
          case Some((v, rest')) => Some(((k, v), rest'))
  }

  ghost function KeysOf(fields: seq<(string, Tree)>): seq<string>
  {
    seq(|fields|, i requires 0 <= i < |fields| => fields[i].0)
  }

  function FromPairs(fields: seq<(string, Tree)>): map<string, Tree>
  {
    if fields == [] then map[]
    else FromPairs(fields[..|fields| - 1])[fields[|fields| - 1].0 := fields[|fields| - 1].1]
  }

  // ---------------------------------------------------------------- round trip

  lemma RuneRoundTrip(c: char, rest: string)
    ensures DecodeRune(EscapeRune(c) + rest) == Some((c, |EscapeRune(c)|))
    ensures EscapeRune(c)[0] != '"'
  {
    var e := EscapeRune(c);
    var s := e + rest;
    assert forall i :: 0 <= i < |e| ==> s[i] == e[i];
    if |e| == 6 {
      assert c as int < 32;
      assert HexValue(e[4]) == Some(c as int / 16) && HexValue(e[5]) == Some(c as int % 16);
    }
  }

  lemma DecodeMoreRunes(c: char, tail: string, t: string, rest: string)
    requires DecodeRunes(tail) == Some((t, rest))
    ensures DecodeRunes(EscapeRune(c) + tail) == Some(([c] + t, rest))
  {
    RuneRoundTrip(c, tail);
    assert (EscapeRune(c) + tail)[|EscapeRune(c)|..] == tail;
  }

  lemma {:induction false} RunesRoundTrip(s: string, i: nat, rest: string)
    requires i <= |s|
    ensures DecodeRunes(EscapeFrom(s, i) + ("\"" + rest)) == Some((s[i..], rest))
    decreases |s| - i
  {
    if i == |s| {
      EndOfRunes(rest);
      assert s[i..] == "";
    } else {
      RunesRoundTrip(s, i + 1, rest);
      RunesStep(s[i], EscapeFrom(s, i + 1), "\"" + rest, s[i + 1..], rest);
      RunesMore(s, i);
    }
  }

  lemma RunesMore(s: string, i: nat)
    requires i < |s|
    ensures EscapeFrom(s, i) == EscapeRune(s[i]) + EscapeFrom(s, i + 1) && s[i..] == [s[i]] + s[i + 1..]
  {
  }

  lemma EndOfRunes(rest: string)
    ensures DecodeRunes("" + ("\"" + rest)) == Some(("", rest))
  {
    assert "" + ("\"" + rest) == "\"" + rest;
    assert ("\"" + rest)[1..] == rest;
  }

  lemma RunesStep(c: char, more: string, end: string, t: string, rest: string)
    requires DecodeRunes(more + end) == Some((t, rest))
    ensures DecodeRunes((EscapeRune(c) + more) + end) == Some(([c] + t, rest))
  {
    DecodeMoreRunes(c, more + end, t, rest);
    Assoc(EscapeRune(c), more, end);
  }

  lemma StringRoundTrip(s: string, rest: string)
    ensures var text := EncodeString(s) + rest;
            text[0] == '"' && DecodeRunes(text[1..]) == Some((s, rest))
  {
    var text := EncodeString(s) + rest;
    assert text[1..] == EscapeFrom(s, 0) + ("\"" + rest);
    RunesRoundTrip(s, 0, rest);
    assert s[0..] == s;
  }

  /** What may follow a value so that a trailing number still ends where it should. */
  predicate Delimited(rest: string)
  {
    rest == [] || !IsNumChar(rest[0])
  }

  lemma {:induction false} NumberRoundTrip(lexeme: string, rest: string)
    requires Delimited(rest) && forall i :: 0 <= i < |lexeme| ==> IsNumChar(lexeme[i])
    ensures NumberLength(lexeme + rest) == |lexeme|
  {
    if lexeme == [] {
      assert lexeme + rest == rest;
    } else {
      assert (lexeme + rest)[1..] == lexeme[1..] + rest;
      NumberRoundTrip(lexeme[1..], rest);
    }
  }

  /** Every number leaf carries a number lexeme. */
  ghost predicate WellFormed(v: Tree)
    decreases v
  {
    match v
    case Num(lexeme) => IsLexeme(lexeme)
    case Arr(a) => forall i :: 0 <= i < |a| ==> WellFormed(a[i])
    case Obj(m) => forall k :: k in m ==> WellFormed(m[k])
    case _ => true
  }

  lemma FirstChar(v: Tree)
    requires WellFormed(v)
    ensures Encode(v) != [] && Encode(v)[0] != ']'
  {
  }

  /** Decoding an encoding followed by any delimiter gives back the tree and the
      delimiter. So the encoding is injective and self-delimiting, its escapes are
      all undone, and its keys appear in ascending order. */
  lemma {:induction false} RoundTrip(v: Tree, rest: string)
    requires WellFormed(v) && Delimited(rest)
    ensures Decode(Encode(v) + rest) == Some((v, rest))
    decreases v, 1
  {
    var text := Encode(v) + rest;
    match v
    case Null => assert text[4..] == rest;
    case Bool(b) => assert text[|Encode(v)|..] == rest;
    case Str(s) => StringRoundTrip(s, rest);
    case Num(lexeme) => NumberTextRoundTrip(lexeme, rest);
    case Arr(a) => ArrayRoundTrip(v, rest);
    case Obj(m) => ObjectRoundTrip(v, rest);
  }

  lemma DecodeArray(body: string, a: seq<Tree>, rest: string)
    requires body != [] && body[0] != ']' && DecodeElems(body) == Some((a, rest))
    ensures Decode("[" + body) == Some((Arr(a), rest))
  {
    assert ("[" + body)[1..] == body;
  }

  lemma ArrayText(v: Tree, rest: string)
    requires v.Arr? && v.elems != []
    ensures Encode(v) + rest == "[" + (Encode(v.elems[0]) + (EncodeElems(v, 1) + ("]" + rest)))
  {
    var val, more := Encode(v.elems[0]), EncodeElems(v, 1);
    assert EncodeElems(v, 0) == val + more;
    assert "[" + (val + more) + "]" + rest == "[" + (val + (more + ("]" + rest)));
  }

  lemma {:induction false} ArrayRoundTrip(v: Tree, rest: string)
    requires v.Arr? && WellFormed(v)
    ensures Decode(Encode(v) + rest) == Some((v, rest))
    decreases v, 0
  {
    if v.elems == [] {
      assert Encode(v) + rest == "[]" + rest;
    } else {
      FirstChar(v.elems[0]);
      ArrayText(v, rest);
      ElemsRoundTrip(v, 0, rest);
      assert v.elems[0..] == v.elems;
      DecodeArray(Encode(v.elems[0]) + (EncodeElems(v, 1) + ("]" + rest)), v.elems, rest);
    }
  }

  lemma NumberTextRoundTrip(lexeme: string, rest: string)
    requires IsLexeme(lexeme) && Delimited(rest)
    ensures Decode(lexeme + rest) == Some((Num(lexeme), rest))
  {
    var text := lexeme + rest;
    NumberRoundTrip(lexeme, rest);
    assert text[0] == lexeme[0] && IsNumChar(text[0]);
    assert !("null" <= text) by { assert "null"[0] == 'n'; }
    assert !("true" <= text) by { assert "true"[0] == 't'; }
    assert !("false" <= text) by { assert "false"[0] == 'f'; }
    assert text[..|lexeme|] == lexeme && text[|lexeme|..] == rest;
  }

  lemma DecodeLastElem(s: string, v: Tree, rest: string)
    requires Decode(s) == Some((v, "]" + rest))
    ensures DecodeElems(s) == Some(([v], rest))
  {
    assert ("]" + rest)[1..] == rest;
  }

  lemma DecodeMoreElems(s: string, v: Tree, next: string, a: seq<Tree>, rest: string)
    requires Decode(s) == Some((v, "," + next)) && DecodeElems(next) == Some((a, rest))
    ensures DecodeElems(s) == Some(([v] + a, rest))
  {
    assert ("," + next)[1..] == next;
  }

  lemma MoreElemsText(v: Tree, i: nat, rest: string)
    requires v.Arr? && 0 < i < |v.elems|
    ensures EncodeElems(v, i) + rest == "," + (Encode(v.elems[i]) + (EncodeElems(v, i + 1) + rest))
  {
    var val, more := Encode(v.elems[i]), EncodeElems(v, i + 1);
    assert "," + val + more + rest == "," + (val + (more + rest));
  }

  lemma {:induction false} ElemsRoundTrip(v: Tree, i: nat, rest: string)
    requires v.Arr? && WellFormed(v) && i < |v.elems|
    ensures DecodeElems(Encode(v.elems[i]) + (EncodeElems(v, i + 1) + ("]" + rest))) == Some((v.elems[i..], rest))
    decreases v, 0, |v.elems| - i
  {
    var a := v.elems;
    var val := Encode(a[i]);
    if i + 1 == |a| {
      assert EncodeElems(v, i + 1) + ("]" + rest) == "]" + rest;
      RoundTrip(a[i], "]" + rest);
      DecodeLastElem(val + ("]" + rest), a[i], rest);
      assert a[i..] == [a[i]];
    } else {
      var next := Encode(a[i + 1]) + (EncodeElems(v, i + 2) + ("]" + rest));
      MoreElemsText(v, i + 1, "]" + rest);
      RoundTrip(a[i], "," + next);
      ElemsRoundTrip(v, i + 1, rest);
      DecodeMoreElems(val + ("," + next), a[i], next, a[i + 1..], rest);
      assert a[i..] == [a[i]] + a[i + 1..];
    }
  }

  ghost function PairsFrom(v: Tree, keys: seq<string>, i: nat): seq<(string, Tree)>
    requires v.Obj? && i <= |keys| && forall k :: k in keys ==> k in v.fields
  {
    seq(|keys| - i, j requires 0 <= j < |keys| - i => (keys[i + j], v.fields[keys[i + j]]))
  }

  lemma PairsStep(v: Tree, keys: seq<string>, i: nat)
    requires v.Obj? && i < |keys| && forall k :: k in keys ==> k in v.fields
    ensures PairsFrom(v, keys, i) == [(keys[i], v.fields[keys[i]])] + PairsFrom(v, keys, i + 1)
    ensures i + 1 == |keys| ==> PairsFrom(v, keys, i) == [(keys[i], v.fields[keys[i]])]
  {
  }

  lemma DecodeLastField(s: string, f: (string, Tree), rest: string)
    requires DecodeField(s) == Some((f, "}" + rest))
    ensures DecodeFields(s) == Some(([f], rest))
  {
    assert ("}" + rest)[1..] == rest;
  }

  lemma DecodeMoreFields(s: string, f: (string, Tree), next: string, fs: seq<(string, Tree)>, rest: string)
    requires DecodeField(s) == Some((f, "," + next)) && DecodeFields(next) == Some((fs, rest))
    ensures DecodeFields(s) == Some(([f] + fs, rest))
  {
    assert ("," + next)[1..] == next;
  }

  lemma {:induction false} FieldsRoundTrip(v: Tree, keys: seq<string>, i: nat, rest: string)
    requires v.Obj? && WellFormed(v) && i < |keys| && forall k :: k in keys ==> k in v.fields
    ensures DecodeFields(EncodeField(v, keys[i]) + (EncodeFields(v, keys, i + 1) + ("}" + rest)))
         == Some((PairsFrom(v, keys, i), rest))
    decreases v, 0, |keys| - i
  {
    PairsStep(v, keys, i);
    if i + 1 == |keys| {
      FieldRoundTrip(v, keys[i], "}" + rest);
      LastFieldDecodes(v, keys, rest);
    } else {
      FieldsRoundTrip(v, keys, i + 1, rest);
      var next := EncodeField(v, keys[i + 1]) + (EncodeFields(v, keys, i + 2) + ("}" + rest));
      FieldRoundTrip(v, keys[i], "," + next);
      MoreFieldsText(v, keys, i + 1, "}" + rest);
      DecodeMoreFields(EncodeField(v, keys[i]) + ("," + next), (keys[i], v.fields[keys[i]]), next, PairsFrom(v, keys, i + 1), rest);
    }
  }

  lemma LastFieldDecodes(v: Tree, keys: seq<string>, rest: string)
    requires v.Obj? && keys != [] && forall k :: k in keys ==> k in v.fields
    requires var k := keys[|keys| - 1]; DecodeField(EncodeField(v, k) + ("}" + rest)) == Some(((k, v.fields[k]), "}" + rest))
    ensures var k := keys[|keys| - 1];
            DecodeFields(EncodeField(v, k) + (EncodeFields(v, keys, |keys|) + ("}" + rest))) == Some(([(k, v.fields[k])], rest))
  {
    var k := keys[|keys| - 1];
    NoMoreFields(v, keys, "}" + rest);
    DecodeLastField(EncodeField(v, k) + ("}" + rest), (k, v.fields[k]), rest);
  }

  lemma NoMoreFields(v: Tree, keys: seq<string>, rest: string)
    requires v.Obj? && forall k :: k in keys ==> k in v.fields
    ensures EncodeFields(v, keys, |keys|) + rest == rest
  {
  }

  lemma MoreFieldsText(v: Tree, keys: seq<string>, i: nat, rest: string)
    requires v.Obj? && 0 < i < |keys| && forall k :: k in keys ==> k in v.fields
    ensures EncodeFields(v, keys, i) + rest == "," + (EncodeField(v, keys[i]) + (EncodeFields(v, keys, i + 1) + rest))
  {
    CommaFirst(EncodeField(v, keys[i]), EncodeFields(v, keys, i + 1), rest);
  }

  lemma CommaFirst(field: string, more: string, rest: string)
    ensures "," + field + more + rest == "," + (field + (more + rest))
  {
  }

  lemma ObjectText(v: Tree, keys: seq<string>, rest: string)
    requires v.Obj? && keys == Sorted(v.fields.Keys) && keys != []
    ensures Encode(v) + rest == "{" + (EncodeField(v, keys[0]) + (EncodeFields(v, keys, 1) + ("}" + rest)))
  {
    FirstField(v, keys);
    Braced(EncodeField(v, keys[0]), EncodeFields(v, keys, 1), rest);
  }

  lemma FirstField(v: Tree, keys: seq<string>)
    requires v.Obj? && keys != [] && forall k :: k in keys ==> k in v.fields
    ensures EncodeFields(v, keys, 0) == EncodeField(v, keys[0]) + EncodeFields(v, keys, 1)
  {
    assert "" + EncodeField(v, keys[0]) == EncodeField(v, keys[0]);
  }

  lemma Braced(field: string, more: string, rest: string)
    ensures "{" + (field + more) + "}" + rest == "{" + (field + (more + ("}" + rest)))
  {
  }

  lemma {:induction false} FieldRoundTrip(v: Tree, k: string, rest: string)
    requires v.Obj? && WellFormed(v) && k in v.fields && Delimited(rest)
    ensures DecodeField(EncodeField(v, k) + rest) == Some(((k, v.fields[k]), rest))
    decreases v, 0, 0
  {
    var val := Encode(v.fields[k]);
    assert EncodeField(v, k) + rest == EncodeString(k) + (":" + (val + rest));
    RoundTrip(v.fields[k], rest);
    DecodeKeyed(k, val + rest, v.fields[k], rest);
  }

  lemma DecodeKeyed(k: string, tail: string, v: Tree, rest: string)
    requires Decode(tail) == Some((v, rest))
    ensures DecodeField(EncodeString(k) + (":" + tail)) == Some(((k, v), rest))
  {
    StringRoundTrip(k, ":" + tail);
    assert (":" + tail)[1..] == tail;
  }

  lemma DecodeObject(body: string, fields: seq<(string, Tree)>, rest: string)
    requires body != [] && body[0] == '"'
    requires DecodeFields(body) == Some((fields, rest)) && Ascending(KeysOf(fields))
    ensures Decode("{" + body) == Some((Obj(FromPairs(fields)), rest))
  {
    assert ("{" + body)[1..] == body;
  }

  lemma {:induction false} ObjectRoundTrip(v: Tree, rest: string)
    requires v.Obj? && WellFormed(v)
    ensures Decode(Encode(v) + rest) == Some((v, rest))
    decreases v, 0
  {
    var keys := Sorted(v.fields.Keys);
    if keys == [] {
      EmptyElements(keys);
      assert v.fields == map[];
      assert Encode(v) + rest == "{}" + rest;
    } else {
      ObjectText(v, keys, rest);
      FieldsRoundTrip(v, keys, 0, rest);
      PairsRebuild(v, keys);
      DecodeObject(EncodeField(v, keys[0]) + (EncodeFields(v, keys, 1) + ("}" + rest)), PairsFrom(v, keys, 0), rest);
    }
  }

  lemma PairsRebuild(v: Tree, keys: seq<string>)
    requires v.Obj? && keys == Sorted(v.fields.Keys)
    ensures KeysOf(PairsFrom(v, keys, 0)) == keys
    ensures FromPairs(PairsFrom(v, keys, 0)) == v.fields
  {
    PairKeys(v, keys);
    PairsRoundTrip(v, keys, |keys|);
    AllFields(v, keys);
    assert PairsFrom(v, keys, 0)[..|keys|] == PairsFrom(v, keys, 0) && keys[..|keys|] == keys;
  }

  lemma PairKeys(v: Tree, keys: seq<string>)
    requires v.Obj? && forall k :: k in keys ==> k in v.fields
    ensures |PairsFrom(v, keys, 0)| == |keys| && KeysOf(PairsFrom(v, keys, 0)) == keys
  {
  }

  /** The fields named by `keys`. */
  ghost function FieldsNamed(v: Tree, keys: seq<string>): map<string, Tree>
    requires v.Obj?
  {
    map k | k in v.fields && k in keys :: v.fields[k]
  }

  lemma AllFields(v: Tree, keys: seq<string>)
    requires v.Obj? && forall k :: k in keys <==> k in v.fields
    ensures FieldsNamed(v, keys) == v.fields
  {
  }

  lemma OneMoreField(v: Tree, keys: seq<string>, k: string)
    requires v.Obj? && k in v.fields
    ensures FieldsNamed(v, keys + [k]) == FieldsNamed(v, keys)[k := v.fields[k]]
  {
  }

  lemma {:induction false} PairsRoundTrip(v: Tree, keys: seq<string>, n: nat)
    requires v.Obj? && n <= |keys| && forall k :: k in keys ==> k in v.fields
    ensures n <= |PairsFrom(v, keys, 0)|
    ensures FromPairs(PairsFrom(v, keys, 0)[..n]) == FieldsNamed(v, keys[..n])
  {
    if n > 0 {
      PairsRoundTrip(v, keys, n - 1);
      var fields := PairsFrom(v, keys, 0)[..n];
      assert fields[..n - 1] == PairsFrom(v, keys, 0)[..n - 1];
      assert keys[..n] == keys[..n - 1] + [keys[n - 1]];
      OneMoreField(v, keys[..n - 1], keys[n - 1]);
    }
  }

  /** Distinct trees never share an encoding. */
  lemma Injective(a: Tree, b: Tree)
    requires WellFormed(a) && WellFormed(b) && Encode(a) == Encode(b)
    ensures a == b
  {
    RoundTrip(a, "");
    RoundTrip(b, "");
  }
}
