/** labelFingerprint (metrics-endpoint aggregator.go): the series key of a label map. */
module Fingerprints {
  import opened StringOrder
  import opened Text
  import opened Contracts

  function Pair(k: string, v: string): string
  {
    k + "=" + v
  }

  /** The pairs of `keys` in order, NUL between them. */
  function Joined(labels: Labels, keys: seq<string>): string
    requires forall k :: k in keys ==> k in labels
  {
    if keys == [] then ""
    else if |keys| == 1 then Pair(keys[0], labels[keys[0]])
    else Pair(keys[0], labels[keys[0]]) + "\0" + Joined(labels, keys[1..])
  }

  ghost function Fingerprint(labels: Labels): string
  {
    Joined(labels, Sorted(labels.Keys))
  }

  /** What is still to be written before position i. */
  function Rest(labels: Labels, keys: seq<string>, i: nat): string
    requires i <= |keys| && forall k :: k in keys ==> k in labels
  {
    (if 0 < i < |keys| then "\0" else "") + Joined(labels, keys[i..])
  }

  lemma RestStep(labels: Labels, keys: seq<string>, i: nat)
    requires i < |keys| && forall k :: k in keys ==> k in labels
    ensures Rest(labels, keys, i) ==
            (if i > 0 then "\0" else "") + (keys[i] + ("=" + (labels[keys[i]] + Rest(labels, keys, i + 1))))
  {
    assert keys[i..][1..] == keys[i + 1..];
  }

  lemma Grow(b: string, sep: string, k: string, v: string, rest: string)
    ensures b + (sep + (k + ("=" + (v + rest)))) == b + sep + k + "=" + v + rest
  {
  }

  method LabelFingerprint(labels: Labels) returns (b: string)
    ensures b == Fingerprint(labels)
  {
    var keys := SortedKeys(labels);
    b := "";
    var i := 0;
    while i < |keys|
      invariant 0 <= i <= |keys|
      invariant b + Rest(labels, keys, i) == Fingerprint(labels)
    {
      RestStep(labels, keys, i);
      Grow(b, if i > 0 then "\0" else "", keys[i], labels[keys[i]], Rest(labels, keys, i + 1));
      b := b + (if i > 0 then "\0" else "");
      b := b + keys[i];
      b := b + "=";
      b := b + labels[keys[i]];
      i := i + 1;
    }
  }

  // ------------------------------------------------ injectivity on plain labels

  /** Keys free of the two separators, values free of NUL. */
  ghost predicate Plain(labels: Labels)
  {
    forall k :: k in labels ==> '=' !in k && '\0' !in k && '\0' !in labels[k]
  }

  /** Reads a fingerprint back: pairs end at NUL, keys at the first '='. */
  function Decode(s: string): Labels
    decreases |s|
  {
    if s == "" then map[]
    else
      var n := IndexOf(s, '\0');
      var eq := IndexOf(s[..n], '=');
      var v := if eq < n then s[eq + 1..n] else "";
      (if n < |s| then Decode(s[n + 1..]) else map[])[s[..eq] := v]
  }

  lemma DecodeLast(k: string, v: string)
    requires '=' !in k && '\0' !in k && '\0' !in v
    ensures Decode(Pair(k, v)) == map[k := v]
  {
    var s := Pair(k, v);
    IndexOfJoined(k, '=', v);
    assert s == k + ['='] + v;
    assert '\0' !in s;
    assert s[..|s|] == s && s[..|k|] == k && s[|k| + 1..] == v;
  }

  lemma DecodeMore(k: string, v: string, rest: string)
    requires '=' !in k && '\0' !in k && '\0' !in v
    ensures Decode(Pair(k, v) + "\0" + rest) == Decode(rest)[k := v]
  {
    var p := Pair(k, v);
    var s := p + "\0" + rest;
    assert '\0' !in p;
    IndexOfJoined(p, '\0', rest);
    IndexOfJoined(k, '=', v);
    assert p == k + ['='] + v;
    assert s == p + ['\0'] + rest;
    assert s[..|p|] == p && s[|p| + 1..] == rest;
    assert s[..|k|] == k && s[|k| + 1..|p|] == v;
  }

  ghost function Restricted(labels: Labels, keys: seq<string>): Labels
    requires forall k :: k in keys ==> k in labels
  {
    map k | k in keys :: labels[k]
  }

  lemma RestrictedStep(labels: Labels, keys: seq<string>)
    requires keys != [] && forall k :: k in keys ==> k in labels
    ensures Restricted(labels, keys) == Restricted(labels, keys[1..])[keys[0] := labels[keys[0]]]
  {
    assert keys == [keys[0]] + keys[1..];
  }

  lemma {:induction false} DecodeJoined(labels: Labels, keys: seq<string>)
    requires Plain(labels) && forall k :: k in keys ==> k in labels
    ensures Decode(Joined(labels, keys)) == Restricted(labels, keys)
  {
    if keys != [] {
      RestrictedStep(labels, keys);
      if |keys| == 1 {
        DecodeLast(keys[0], labels[keys[0]]);
      } else {
        DecodeJoined(labels, keys[1..]);
        DecodeMore(keys[0], labels[keys[0]], Joined(labels, keys[1..]));
      }
    }
  }

  /** A fingerprint of plain labels can be read back. */
  lemma FingerprintRoundTrip(labels: Labels)
    requires Plain(labels)
    ensures Decode(Fingerprint(labels)) == labels
  {
    DecodeJoined(labels, Sorted(labels.Keys));
  }

  /** Distinct plain label maps never share a series. */
  lemma FingerprintInjective(a: Labels, b: Labels)
    requires Plain(a) && Plain(b) && Fingerprint(a) == Fingerprint(b)
    ensures a == b
  {
    FingerprintRoundTrip(a);
    FingerprintRoundTrip(b);
  }
}
