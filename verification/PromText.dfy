/** Prometheus text format 0.0.4 (metrics-endpoint exposition.go): escaping, lines, and a
    reader of the format that gets back what was written. */
module PromText {
  import opened Json
  import opened Contracts
  import opened StringOrder
  import opened Text
  import opened Fingerprints
  import opened Sums

  // ------------------------------------------------ escaping

  /** strings.ReplaceAll for a one-character pattern. */
  function ReplaceAll(s: string, c: char, replacement: string): string
  {
    if s == "" then "" else (if s[0] == c then replacement else [s[0]]) + ReplaceAll(s[1..], c, replacement)
  }

  /** The three passes over a label value. */
  function EscapeLabelValue(s: string): string
  {
    ReplaceAll(ReplaceAll(ReplaceAll(s, '\\', "\\\\"), '"', "\\\""), '\n', "\\n")
  }

  /** The two passes over a help text. */
  function EscapeHelp(s: string): string
  {
    ReplaceAll(ReplaceAll(s, '\\', "\\\\"), '\n', "\\n")
  }

  function EscapeChar(c: char, quoted: bool): string
  {
    if c == '\\' then "\\\\"
    else if c == '"' && quoted then "\\\""
    else if c == '\n' then "\\n"
    else [c]
  }

  /** The same in one pass, character by character. */
  function Escape(s: string, quoted: bool): string
  {
    if s == "" then "" else EscapeChar(s[0], quoted) + Escape(s[1..], quoted)
  }

  lemma Assoc(x: string, y: string, z: string)
    ensures (x + y) + z == x + (y + z)
  {
  }

  lemma {:induction false} ReplaceJoin(a: string, b: string, c: char, t: string)
    ensures ReplaceAll(a + b, c, t) == ReplaceAll(a, c, t) + ReplaceAll(b, c, t)
  {
    if a == "" {
      assert a + b == b;
    } else {
      ReplaceJoin(a[1..], b, c, t);
      assert (a + b)[1..] == a[1..] + b && (a + b)[0] == a[0];
      Assoc(if a[0] == c then t else [a[0]], ReplaceAll(a[1..], c, t), ReplaceAll(b, c, t));
    }
  }

  lemma ReplaceTwo(x: char, y: char, c: char, t: string)
    requires x != c
    ensures ReplaceAll([x, y], c, t) == [x] + (if y == c then t else [y])
    ensures ReplaceAll([y], c, t) == if y == c then t else [y]
  {
    assert [y][1..] == "";
    assert ReplaceAll([y], c, t) == if y == c then t else [y];
    assert [x, y][1..] == [y];
    assert ReplaceAll([x, y], c, t) == [x] + ReplaceAll([y], c, t);
  }

  lemma PassesOneChar(c: char)
    ensures EscapeLabelValue([c]) == EscapeChar(c, true)
    ensures EscapeHelp([c]) == EscapeChar(c, false)
  {
    ReplaceTwo('x', c, '\\', "\\\\");
    ReplaceTwo('\\', '\\', '"', "\\\"");
    ReplaceTwo('x', c, '"', "\\\"");
    ReplaceTwo('\\', '\\', '\n', "\\n");
    ReplaceTwo('\\', '"', '\n', "\\n");
    ReplaceTwo('x', c, '\n', "\\n");
  }

  /** Successive passes never escape what an earlier pass wrote. */
  lemma {:induction false} PassesAreOne(s: string)
    ensures EscapeLabelValue(s) == Escape(s, true)
    ensures EscapeHelp(s) == Escape(s, false)
  {
    if s != "" {
      var a, b := [s[0]], s[1..];
      assert s == a + b;
      PassesAreOne(b);
      PassesOneChar(s[0]);
      ReplaceJoin(a, b, '\\', "\\\\");
      var a1, b1 := ReplaceAll(a, '\\', "\\\\"), ReplaceAll(b, '\\', "\\\\");
      ReplaceJoin(a1, b1, '\n', "\\n");
      ReplaceJoin(a1, b1, '"', "\\\"");
      ReplaceJoin(ReplaceAll(a1, '"', "\\\""), ReplaceAll(b1, '"', "\\\""), '\n', "\\n");
    }
  }

  lemma {:induction false} EscapedHasNoNewline(s: string, quoted: bool)
    ensures '\n' !in Escape(s, quoted)
  {
    if s != "" { EscapedHasNoNewline(s[1..], quoted); }
  }

  // ------------------------------------------------ lines

  datatype Line =
    | Help(name: string, help: string)
    | Type(name: string, kind: string)
    | Sample(name: string, labels: Labels, value: string)

  function PairText(k: string, v: string): string
  {
    k + ("=\"" + (EscapeLabelValue(v) + "\""))
  }

  /** The label pairs of `keys` in order, commas between them. */
  function PairsText(labels: Labels, keys: seq<string>): string
    requires forall k :: k in keys ==> k in labels
  {
    if keys == [] then ""
    else if |keys| == 1 then PairText(keys[0], labels[keys[0]])
    else PairText(keys[0], labels[keys[0]]) + ("," + PairsText(labels, keys[1..]))
  }

  ghost function LineText(line: Line): string
  {
    match line
    case Help(name, help) => "# HELP " + (name + (" " + (EscapeHelp(help) + "\n")))
    case Type(name, kind) => "# TYPE " + (name + (" " + (kind + "\n")))
    case Sample(name, labels, value) =>
      if labels == map[] then name + (" " + (value + "\n"))
      else name + ("{" + (PairsText(labels, Sorted(labels.Keys)) + ("}" + (" " + (value + "\n")))))
  }

  ghost function LineTexts(): Line -> string
  {
    line => LineText(line)
  }

  ghost function DocText(lines: seq<Line>): string
  {
    Flatten(lines, LineTexts())
  }

  // ------------------------------------------------ writing

  method WriteMetricHeader(w: string, name: string, help: string, kind: string) returns (out: string)
    ensures out == w + LineText(Help(name, help)) + LineText(Type(name, kind))
  {
    out := w + ("# HELP " + (name + (" " + (EscapeHelp(help) + "\n"))));
    out := out + ("# TYPE " + (name + (" " + (kind + "\n"))));
  }

  /** What is still to be written of the pairs before position i. */
  function RestPairs(labels: Labels, keys: seq<string>, i: nat): string
    requires i <= |keys| && forall k :: k in keys ==> k in labels
  {
    (if 0 < i < |keys| then "," else "") + PairsText(labels, keys[i..])
  }

  lemma RestPairsStep(labels: Labels, keys: seq<string>, i: nat)
    requires i < |keys| && forall k :: k in keys ==> k in labels
    ensures RestPairs(labels, keys, i) ==
            (if i > 0 then "," else "") + (PairText(keys[i], labels[keys[i]]) + RestPairs(labels, keys, i + 1))
  {
    assert keys[i..][1..] == keys[i + 1..];
  }

  lemma GrowPair(b: string, sep: string, k: string, v: string, rest: string)
    ensures b + (sep + (PairText(k, v) + rest)) == b + sep + k + "=\"" + EscapeLabelValue(v) + "\"" + rest
  {
  }

  method WritePairs(labels: Labels, keys: seq<string>) returns (b: string)
    requires forall k :: k in keys ==> k in labels
    ensures b == PairsText(labels, keys)
  {
    b := "";
    var i := 0;
    while i < |keys|
      invariant 0 <= i <= |keys|
      invariant b + RestPairs(labels, keys, i) == PairsText(labels, keys)
    {
      RestPairsStep(labels, keys, i);
      GrowPair(b, if i > 0 then "," else "", keys[i], labels[keys[i]], RestPairs(labels, keys, i + 1));
      b := b + (if i > 0 then "," else "");
      b := b + keys[i];
      b := b + "=\"";
      b := b + EscapeLabelValue(labels[keys[i]]);
      b := b + "\"";
      i := i + 1;
    }
  }

  method WriteSeries(w: string, name: string, labels: Labels, value: string) returns (out: string)
    ensures out == w + LineText(Sample(name, labels, value))
  {
    if |labels| == 0 {
      out := w + (name + (" " + (value + "\n")));
      return;
    }
    var keys := SortedKeys(labels);
    var pairs := WritePairs(labels, keys);
    out := w + (name + ("{" + (pairs + ("}" + (" " + (value + "\n"))))));
  }

  // ------------------------------------------------ reading

  datatype Parsed<T> = Parsed(value: T, rest: string)

  /** A label value up to its closing quote. */
  function ParseQuoted(s: string): (r: Option<Parsed<string>>)
    ensures r.Some? ==> |r.value.rest| < |s|
  {
    if s == "" || s[0] == '\n' then None
    else if s[0] == '"' then Some(Parsed("", s[1..]))
    else if s[0] != '\\' then Prepend(s[0], ParseQuoted(s[1..]))
    else if |s| < 2 then None
    else if s[1] == '\\' || s[1] == '"' then Prepend(s[1], ParseQuoted(s[2..]))
    else if s[1] == 'n' then Prepend('\n', ParseQuoted(s[2..]))
    else None
  }

  function Prepend(c: char, r: Option<Parsed<string>>): Option<Parsed<string>>
  {
    match r
    case None => None
    case Some(p) => Some(Parsed([c] + p.value, p.rest))
  }

  /** Label pairs up to the closing brace. */
  function ParseLabels(s: string): (r: Option<Parsed<Labels>>)
    ensures r.Some? ==> |r.value.rest| < |s|
    decreases |s|
  {
    var eq := IndexOf(s, '=');
    if |s| <= eq + 1 || s[eq + 1] != '"' then None
    else
      match ParseQuoted(s[eq + 2..])
      case None => None
      case Some(p) =>
        if p.rest == "" then None
        else if p.rest[0] == '}' then Some(Parsed(map[s[..eq] := p.value], p.rest[1..]))
        else if p.rest[0] != ',' then None
        else
          match ParseLabels(p.rest[1..])
          case None => None
          case Some(more) => Some(Parsed(more.value[s[..eq] := p.value], more.rest))
  }

  /** The rest of the line, and what follows it. */
  function ParseToNewline(s: string): (r: Option<Parsed<string>>)
    ensures r.Some? ==> |r.value.rest| < |s|
  {
    var n := IndexOf(s, '\n');
    if n == |s| then None else Some(Parsed(s[..n], s[n + 1..]))
  }

  /** A word, one blank, and the rest of the line. */
  function ParseWord(s: string): (r: Option<Parsed<(string, string)>>)
    ensures r.Some? ==> |r.value.rest| < |s|
  {
    var n := IndexOf(s, ' ');
    if n == |s| then None
    else
      match ParseToNewline(s[n + 1..])
      case None => None
      case Some(p) => Some(Parsed((s[..n], p.value), p.rest))
  }

  function UnescapeHelp(s: string): string
  {
    if s == "" then ""
    else if s[0] == '\\' && |s| > 1 then [if s[1] == 'n' then '\n' else s[1]] + UnescapeHelp(s[2..])
    else [s[0]] + UnescapeHelp(s[1..])
  }

  function ParseSample(s: string): (r: Option<Parsed<Line>>)
    ensures r.Some? ==> |r.value.rest| < |s|
  {
    var n := IndexOf(s, '{');
    if IndexOf(s, ' ') < n then
      match ParseWord(s)
      case None => None
      case Some(p) => Some(Parsed(Sample(p.value.0, map[], p.value.1), p.rest))
    else if n == |s| then None
    else
      match ParseLabels(s[n + 1..])
      case None => None
      case Some(p) =>
        if p.rest == "" || p.rest[0] != ' ' then None
        else
          match ParseToNewline(p.rest[1..])
          case None => None
          case Some(v) => Some(Parsed(Sample(s[..n], p.value, v.value), v.rest))
  }

  predicate StartsWith(s: string, prefix: string)
  {
    |prefix| <= |s| && s[..|prefix|] == prefix
  }

  function ParseLine(s: string): (r: Option<Parsed<Line>>)
    ensures r.Some? ==> |r.value.rest| < |s|
  {
    if StartsWith(s, "# HELP ") then
      match ParseWord(s[7..])
      case None => None
      case Some(p) => Some(Parsed(Help(p.value.0, UnescapeHelp(p.value.1)), p.rest))
    else if StartsWith(s, "# TYPE ") then
      match ParseWord(s[7..])
      case None => None
      case Some(p) => Some(Parsed(Type(p.value.0, p.value.1), p.rest))
    else ParseSample(s)
  }

  function ParseDoc(s: string): Option<seq<Line>>
    decreases |s|
  {
    if s == "" then Some([])
    else
      match ParseLine(s)
      case None => None
      case Some(p) =>
        match ParseDoc(p.rest)
        case None => None
        case Some(lines) => Some([p.value] + lines)
  }

  // ------------------------------------------------ round trip

  ghost predicate NameOk(name: string)
  {
    name != "" && name[0] != '#' && '{' !in name && ' ' !in name && '\n' !in name
  }

  ghost predicate KeysOk(labels: Labels)
  {
    forall k :: k in labels ==> '=' !in k && '\n' !in k
  }

  /** Names, label names, kinds and value lexemes must be plain; label values and help texts
      are arbitrary. */
  ghost predicate LineOk(line: Line)
  {
    && NameOk(line.name)
    && match line
       case Help(_, _) => true
       case Type(_, kind) => '\n' !in kind
       case Sample(_, labels, value) => KeysOk(labels) && '\n' !in value
  }

  lemma {:induction false} QuotedRoundTrip(v: string, rest: string)
    ensures ParseQuoted(Escape(v, true) + ("\"" + rest)) == Some(Parsed(v, rest))
  {
    if v == "" {
      assert Escape(v, true) + ("\"" + rest) == "\"" + rest;
    } else {
      QuotedRoundTrip(v[1..], rest);
      QuotedStep(v[0], Escape(v[1..], true), "\"" + rest);
      assert [v[0]] + v[1..] == v;
    }
  }

  lemma QuotedStep(c: char, more: string, end: string)
    ensures ParseQuoted((EscapeChar(c, true) + more) + end) == Prepend(c, ParseQuoted(more + end))
  {
    var s := (EscapeChar(c, true) + more) + end;
    if |EscapeChar(c, true)| == 1 {
      assert s[1..] == more + end;
    } else {
      assert s[2..] == more + end;
    }
  }

  lemma {:induction false} HelpRoundTrip(s: string)
    ensures UnescapeHelp(Escape(s, false)) == s
  {
    if s != "" {
      HelpRoundTrip(s[1..]);
      HelpStep(s[0], Escape(s[1..], false));
      assert [s[0]] + s[1..] == s;
    }
  }

  lemma HelpStep(c: char, more: string)
    ensures UnescapeHelp(EscapeChar(c, false) + more) == [c] + UnescapeHelp(more)
  {
    var s := EscapeChar(c, false) + more;
    if |EscapeChar(c, false)| == 1 {
      assert s[1..] == more;
    } else {
      assert s[2..] == more;
    }
  }

  /** One pair is read back, whatever follows its closing quote. */
  lemma PairRoundTrip(k: string, v: string, rest: string)
    requires '=' !in k
    ensures var s := PairText(k, v) + rest;
            && IndexOf(s, '=') == |k| && |k| + 1 < |s| && s[|k| + 1] == '"' && s[..|k|] == k
            && ParseQuoted(s[|k| + 2..]) == Some(Parsed(v, rest))
  {
    var s := PairText(k, v) + rest;
    PassesAreOne(v);
    QuotedRoundTrip(v, rest);
    PairLayout(k, Escape(v, true), rest, s);
  }

  lemma PairSplit(k: string, e: string, rest: string)
    ensures (k + ("=\"" + (e + "\""))) + rest == k + ['='] + ("\"" + (e + ("\"" + rest)))
  {
  }

  lemma PairLayout(k: string, e: string, rest: string, s: string)
    requires '=' !in k && s == (k + ("=\"" + (e + "\""))) + rest
    ensures IndexOf(s, '=') == |k| && |k| + 1 < |s| && s[|k| + 1] == '"' && s[..|k|] == k
    ensures s[|k| + 2..] == e + ("\"" + rest)
  {
    PairSplit(k, e, rest);
    IndexOfJoined(k, '=', "\"" + (e + ("\"" + rest)));
  }

  lemma LastPair(k: string, v: string, rest: string)
    requires '=' !in k
    ensures ParseLabels(PairText(k, v) + ("}" + rest)) == Some(Parsed(map[k := v], rest))
  {
    PairRoundTrip(k, v, "}" + rest);
    assert ("}" + rest)[1..] == rest;
  }

  lemma MorePairs(k: string, v: string, rest: string, more: Parsed<Labels>)
    requires '=' !in k && ParseLabels(rest) == Some(more)
    ensures ParseLabels(PairText(k, v) + ("," + rest)) == Some(Parsed(more.value[k := v], more.rest))
  {
    PairRoundTrip(k, v, "," + rest);
    assert ("," + rest)[1..] == rest;
  }

  lemma {:induction false} PairsRoundTrip(labels: Labels, keys: seq<string>, rest: string)
    requires keys != [] && KeysOk(labels) && forall k :: k in keys ==> k in labels
    ensures ParseLabels(PairsText(labels, keys) + ("}" + rest)) == Some(Parsed(Restricted(labels, keys), rest))
  {
    var k, v := keys[0], labels[keys[0]];
    RestrictedStep(labels, keys);
    if |keys| == 1 {
      LastPair(k, v, rest);
    } else {
      PairsRoundTrip(labels, keys[1..], rest);
      var tail := PairsText(labels, keys[1..]) + ("}" + rest);
      MorePairs(k, v, tail, Parsed(Restricted(labels, keys[1..]), rest));
      Nest(PairText(k, v), PairsText(labels, keys[1..]), "}" + rest);
    }
  }

  lemma Nest(a: string, b: string, c: string)
    ensures (a + ("," + b)) + c == a + ("," + (b + c))
  {
  }

  lemma ToNewline(value: string, rest: string)
    requires '\n' !in value
    ensures ParseToNewline((value + "\n") + rest) == Some(Parsed(value, rest))
  {
    var s := (value + "\n") + rest;
    assert s == value + ['\n'] + rest;
    IndexOfJoined(value, '\n', rest);
    assert s[..|value|] == value && s[|value| + 1..] == rest;
  }

  lemma Word(name: string, value: string, rest: string)
    requires ' ' !in name && '\n' !in value
    ensures var s := (name + (" " + (value + "\n"))) + rest;
            IndexOf(s, ' ') == |name| && ParseWord(s) == Some(Parsed((name, value), rest))
  {
    var s := (name + (" " + (value + "\n"))) + rest;
    var tail := (value + "\n") + rest;
    assert s == name + [' '] + tail;
    IndexOfJoined(name, ' ', tail);
    ToNewline(value, rest);
    assert s[..|name|] == name && s[|name| + 1..] == tail;
  }

  lemma NotHeader(s: string, name: string)
    requires NameOk(name) && StartsWith(s, name)
    ensures !StartsWith(s, "# HELP ") && !StartsWith(s, "# TYPE ")
  {
    assert s[0] == name[0];
    if |s| >= 7 { assert s[..7][0] == s[0]; }
  }

  lemma AfterName(s: string, name: string, c: char)
    requires StartsWith(s, name) && c !in name
    ensures IndexOf(s, c) >= |name|
  {
    assert forall i :: 0 <= i < |name| ==> s[i] == name[i];
  }

  lemma BareRoundTrip(name: string, value: string, rest: string)
    requires NameOk(name) && '\n' !in value
    ensures ParseLine((name + (" " + (value + "\n"))) + rest) == Some(Parsed(Sample(name, map[], value), rest))
  {
    var s := (name + (" " + (value + "\n"))) + rest;
    Word(name, value, rest);
    assert s[..|name|] == name && s[|name|] == ' ';
    NotHeader(s, name);
    AfterName(s, name, '{');
  }

  lemma SampleStep(s: string, n: nat, after: string, labels: Labels, value: string, rest: string)
    requires n == IndexOf(s, '{') < |s| && IndexOf(s, ' ') >= n
    requires !StartsWith(s, "# HELP ") && !StartsWith(s, "# TYPE ")
    requires after != "" && after[0] == ' '
    requires ParseLabels(s[n + 1..]) == Some(Parsed(labels, after))
    requires ParseToNewline(after[1..]) == Some(Parsed(value, rest))
    ensures ParseLine(s) == Some(Parsed(Sample(s[..n], labels, value), rest))
  {
  }

  lemma LabelsRoundTrip(labels: Labels, after: string)
    requires KeysOk(labels) && labels != map[]
    ensures ParseLabels(PairsText(labels, Sorted(labels.Keys)) + ("}" + after)) == Some(Parsed(labels, after))
  {
    var keys := Sorted(labels.Keys);
    assert labels.Keys != {};
    EmptyElements(keys);
    PairsRoundTrip(labels, keys, after);
    WholeRestricted(labels);
  }

  lemma WholeRestricted(labels: Labels)
    ensures Restricted(labels, Sorted(labels.Keys)) == labels
  {
  }

  lemma LabelledRoundTrip(name: string, labels: Labels, value: string, rest: string)
    requires NameOk(name) && KeysOk(labels) && labels != map[] && '\n' !in value
    ensures ParseLine(LineText(Sample(name, labels, value)) + rest) == Some(Parsed(Sample(name, labels, value), rest))
  {
    var pairs := PairsText(labels, Sorted(labels.Keys));
    var after := " " + ((value + "\n") + rest);
    LabelsRoundTrip(labels, after);
    LabelledText(name, pairs, value, rest);
    LabelledParts(name, pairs, labels, value, rest, after, name + ("{" + (pairs + ("}" + after))));
  }

  lemma LabelledText(name: string, pairs: string, value: string, rest: string)
    ensures (name + ("{" + (pairs + ("}" + (" " + (value + "\n")))))) + rest ==
            name + ("{" + (pairs + ("}" + (" " + ((value + "\n") + rest)))))
  {
  }

  lemma LabelledParts(name: string, pairs: string, labels: Labels, value: string, rest: string, after: string, s: string)
    requires NameOk(name) && '\n' !in value
    requires after == " " + ((value + "\n") + rest)
    requires ParseLabels(pairs + ("}" + after)) == Some(Parsed(labels, after))
    requires s == name + ("{" + (pairs + ("}" + after)))
    ensures ParseLine(s) == Some(Parsed(Sample(name, labels, value), rest))
  {
    AfterBlank(value, rest, after);
    LabelledLayout(name, pairs + ("}" + after), s);
    SampleStep(s, |name|, after, labels, value, rest);
  }

  lemma AfterBlank(value: string, rest: string, after: string)
    requires '\n' !in value && after == " " + ((value + "\n") + rest)
    ensures after != "" && after[0] == ' ' && ParseToNewline(after[1..]) == Some(Parsed(value, rest))
  {
    ToNewline(value, rest);
    assert after[1..] == (value + "\n") + rest;
  }

  lemma LabelledLayout(name: string, tail: string, s: string)
    requires NameOk(name) && s == name + ("{" + tail)
    ensures IndexOf(s, '{') == |name| < |s| && IndexOf(s, ' ') >= |name| && s[..|name|] == name
    ensures s[|name| + 1..] == tail
    ensures !StartsWith(s, "# HELP ") && !StartsWith(s, "# TYPE ")
  {
    BraceSplits(name, tail, s);
    NotHeader(s, name);
    AfterName(s, name, ' ');
    IndexOfJoined(name, '{', tail);
  }

  lemma BraceSplits(name: string, tail: string, s: string)
    requires s == name + ("{" + tail)
    ensures s == name + ['{'] + tail && StartsWith(s, name) && s[|name| + 1..] == tail
  {
  }

  lemma HelpLine(name: string, help: string, rest: string, s: string)
    requires NameOk(name) && s == LineText(Help(name, help)) + rest
    ensures ParseLine(s) == Some(Parsed(Help(name, help), rest))
  {
    var text := EscapeHelp(help);
    PassesAreOne(help);
    EscapedHasNoNewline(help, false);
    HelpRoundTrip(help);
    Word(name, text, rest);
    HeaderLayout("# HELP ", name + (" " + (text + "\n")), rest, s);
  }

  lemma TypeStep(s: string, p: Parsed<(string, string)>)
    requires StartsWith(s, "# TYPE ") && ParseWord(s[7..]) == Some(p)
    ensures ParseLine(s) == Some(Parsed(Type(p.value.0, p.value.1), p.rest))
  {
    assert s[..7][2] == "# TYPE "[2] != "# HELP "[2];
  }

  lemma TypeWord(name: string, kind: string, rest: string, s: string)
    requires NameOk(name) && '\n' !in kind && s == LineText(Type(name, kind)) + rest
    ensures StartsWith(s, "# TYPE ") && ParseWord(s[7..]) == Some(Parsed((name, kind), rest))
  {
    Word(name, kind, rest);
    HeaderLayout("# TYPE ", name + (" " + (kind + "\n")), rest, s);
  }

  lemma TypeLine(name: string, kind: string, rest: string, s: string)
    requires NameOk(name) && '\n' !in kind && s == LineText(Type(name, kind)) + rest
    ensures ParseLine(s) == Some(Parsed(Type(name, kind), rest))
  {
    TypeWord(name, kind, rest, s);
    TypeStep(s, Parsed((name, kind), rest));
  }

  lemma HeaderLayout(prefix: string, body: string, rest: string, s: string)
    requires |prefix| == 7 && s == (prefix + body) + rest
    ensures StartsWith(s, prefix) && s[7..] == body + rest
  {
  }

  /** Every line is read back, whatever its label values or help text, and reading stops
      exactly at its end. */
  lemma LineRoundTrip(line: Line, rest: string)
    requires LineOk(line)
    ensures ParseLine(LineText(line) + rest) == Some(Parsed(line, rest))
  {
    var s := LineText(line) + rest;
    match line
    case Help(name, help) => HelpLine(name, help, rest, s);
    case Type(name, kind) => TypeLine(name, kind, rest, s);
    case Sample(name, labels, value) =>
      if labels == map[] {
        BareRoundTrip(name, value, rest);
      } else {
        LabelledRoundTrip(name, labels, value, rest);
      }
  }

  lemma ParseStep(s: string, line: Line, rest: string)
    requires ParseLine(s) == Some(Parsed(line, rest)) && ParseDoc(rest).Some?
    ensures ParseDoc(s) == Some([line] + ParseDoc(rest).value)
  {
  }

  /** A whole document is read back line for line. */
  lemma {:induction false} DocRoundTrip(lines: seq<Line>)
    requires forall l :: l in lines ==> LineOk(l)
    ensures ParseDoc(DocText(lines)) == Some(lines)
  {
    if lines != [] {
      var line, rest := lines[0], lines[1..];
      assert lines == [line] + rest;
      DocRoundTrip(rest);
      FlattenCons(line, rest, LineTexts());
      LineRoundTrip(line, DocText(rest));
      ParseStep(LineText(line) + DocText(rest), line, DocText(rest));
    }
  }

  lemma {:induction false} PairsOneLine(labels: Labels, keys: seq<string>)
    requires KeysOk(labels) && forall k :: k in keys ==> k in labels
    ensures '\n' !in PairsText(labels, keys)
  {
    if keys != [] {
      PassesAreOne(labels[keys[0]]);
      EscapedHasNoNewline(labels[keys[0]], true);
      PairsOneLine(labels, keys[1..]);
    }
  }

  /** A newline at the end and nowhere else. */
  ghost predicate Terminated(s: string)
  {
    s != "" && s[|s| - 1] == '\n' && '\n' !in s[..|s| - 1]
  }

  lemma Before(a: string, b: string)
    requires '\n' !in a && Terminated(b)
    ensures Terminated(a + b)
  {
    var s := a + b;
    assert s[..|s| - 1] == a + b[..|b| - 1];
  }

  lemma Ends(value: string)
    requires '\n' !in value
    ensures Terminated(value + "\n")
  {
    assert (value + "\n")[..|value|] == value;
  }

  lemma WordEnds(name: string, value: string)
    requires '\n' !in name && '\n' !in value
    ensures Terminated(name + (" " + (value + "\n")))
  {
    Ends(value);
    Before(" ", value + "\n");
    Before(name, " " + (value + "\n"));
  }

  lemma LabelledEnds(name: string, pairs: string, value: string)
    requires '\n' !in name && '\n' !in value && '\n' !in pairs
    ensures Terminated(name + ("{" + (pairs + ("}" + (" " + (value + "\n"))))))
  {
    WordEnds("}", value);
    Before(pairs, "}" + (" " + (value + "\n")));
    Before("{", pairs + ("}" + (" " + (value + "\n"))));
    Before(name, "{" + (pairs + ("}" + (" " + (value + "\n")))));
  }

  /** A line holds no newline before its terminator. */
  lemma OneLine(line: Line)
    requires LineOk(line)
    ensures Terminated(LineText(line))
  {
    match line
    case Help(name, help) =>
      PassesAreOne(help);
      EscapedHasNoNewline(help, false);
      WordEnds(name, EscapeHelp(help));
      Before("# HELP ", name + (" " + (EscapeHelp(help) + "\n")));
    case Type(name, kind) =>
      WordEnds(name, kind);
      Before("# TYPE ", name + (" " + (kind + "\n")));
    case Sample(name, labels, value) =>
      PairsOneLine(labels, Sorted(labels.Keys));
      WordEnds(name, value);
      LabelledEnds(name, PairsText(labels, Sorted(labels.Keys)), value);
  }
}
