/** The series key of the gateway registry (gateway metrics.go, Labels.toKey). */
module GatewayKey {
  import opened Json
  import opened Contracts
  import opened Fingerprints
  import opened PromText
  import Decimal

  datatype RequestLabels = RequestLabels(
    provider: string, model: string, tenant: string, env: string, status: string, statusCode: int)

  /** A label name, its opening quote, its escaped value, and what is written next. */
  function Field(k: string, v: string, next: string): string
  {
    k + ("=\"" + (EscapeLabelValue(v) + next))
  }

  /** Each closing quote is written together with the next label's name. */
  function ToKey(l: RequestLabels): string
  {
    Field("provider", l.provider, "\"," +
    Field("model", l.model, "\"," +
    Field("tenant", l.tenant, "\"," +
    Field("env", l.env, "\"," +
    Field("status", l.status,
      (if l.statusCode > 0 then "\"," + ("status_code" + ("=\"" + Decimal.FormatInt(l.statusCode))) else "") + "\"")))))
  }

  /** The labels a key stands for in the exposition. */
  function LabelMap(l: RequestLabels): Labels
  {
    var fixed := map["provider" := l.provider, "model" := l.model, "tenant" := l.tenant, "env" := l.env, "status" := l.status];
    if l.statusCode > 0 then fixed["status_code" := Decimal.FormatInt(l.statusCode)] else fixed
  }

  function KeyOrder(l: RequestLabels): seq<string>
  {
    ["provider"] + (["model"] + (["tenant"] + (["env"] + (["status"] + (if l.statusCode > 0 then ["status_code"] else [])))))
  }

  lemma PairsCons(labels: Labels, k: string, rest: seq<string>)
    requires k in labels && forall x :: x in rest ==> x in labels
    ensures PairsText(labels, [k] + rest) ==
            if rest == [] then PairText(k, labels[k]) else PairText(k, labels[k]) + ("," + PairsText(labels, rest))
  {
    assert ([k] + rest)[1..] == rest;
  }

  lemma {:induction false} EscapePlain(s: string)
    requires forall i :: 0 <= i < |s| ==> s[i] != '\\' && s[i] != '"' && s[i] != '\n'
    ensures Escape(s, true) == s
  {
    if s != "" { EscapePlain(s[1..]); }
  }

  lemma CodePlain(code: int)
    ensures EscapeLabelValue(Decimal.FormatInt(code)) == Decimal.FormatInt(code)
  {
    PassesAreOne(Decimal.FormatInt(code));
    EscapePlain(Decimal.FormatInt(code));
  }

  /** The tail of a key from its status on. */
  function StatusText(l: RequestLabels): string
  {
    if l.statusCode > 0 then PairText("status", l.status) + ("," + PairText("status_code", Decimal.FormatInt(l.statusCode)))
    else PairText("status", l.status)
  }

  lemma Entries(l: RequestLabels)
    ensures forall k :: k in KeyOrder(l) ==> k in LabelMap(l)
    ensures var m := LabelMap(l);
            && m["provider"] == l.provider && m["model"] == l.model && m["tenant"] == l.tenant && m["env"] == l.env
            && m["status"] == l.status && (l.statusCode > 0 ==> m["status_code"] == Decimal.FormatInt(l.statusCode))
  {
  }

  lemma StatusPairs(l: RequestLabels, code: seq<string>)
    requires code == if l.statusCode > 0 then ["status_code"] else []
    ensures "status" in LabelMap(l) && forall k :: k in code ==> k in LabelMap(l)
    ensures PairsText(LabelMap(l), ["status"] + code) == StatusText(l)
  {
    Entries(l);
    PairsCons(LabelMap(l), "status", code);
    if l.statusCode > 0 {
      PairsCons(LabelMap(l), "status_code", []);
      assert ["status_code"] + [] == ["status_code"];
    }
  }

  /** Four labels in front of a list. */
  lemma FourPairs(m: Labels, a: string, b: string, c: string, d: string, rest: seq<string>)
    requires {a, b, c, d} <= m.Keys && rest != [] && forall k :: k in rest ==> k in m
    ensures PairsText(m, [a] + ([b] + ([c] + ([d] + rest)))) ==
            PairText(a, m[a]) + ("," + (PairText(b, m[b]) + ("," +
            (PairText(c, m[c]) + ("," + (PairText(d, m[d]) + ("," + PairsText(m, rest))))))))
  {
    PairsCons(m, d, rest);
    PairsCons(m, c, [d] + rest);
    PairsCons(m, b, [c] + ([d] + rest));
    PairsCons(m, a, [b] + ([c] + ([d] + rest)));
  }

  lemma OrderedPairs(l: RequestLabels)
    ensures forall k :: k in KeyOrder(l) ==> k in LabelMap(l)
    ensures PairsText(LabelMap(l), KeyOrder(l)) ==
            PairText("provider", l.provider) + ("," + (PairText("model", l.model) + ("," +
            (PairText("tenant", l.tenant) + ("," + (PairText("env", l.env) + ("," + StatusText(l))))))))
  {
    var code := if l.statusCode > 0 then ["status_code"] else [];
    Entries(l);
    StatusPairs(l, code);
    FourPairs(LabelMap(l), "provider", "model", "tenant", "env", ["status"] + code);
  }

  lemma FieldStep(k: string, v: string, rest: string)
    ensures Field(k, v, "\"," + rest) == PairText(k, v) + ("," + rest)
  {
    CloseQuote(EscapeLabelValue(v), rest);
  }

  lemma CloseQuote(e: string, rest: string)
    ensures e + ("\"," + rest) == (e + "\"") + ("," + rest)
  {
  }

  lemma StatusField(l: RequestLabels)
    ensures Field("status", l.status,
              (if l.statusCode > 0 then "\"," + ("status_code" + ("=\"" + Decimal.FormatInt(l.statusCode))) else "") + "\"") ==
            StatusText(l)
  {
    if l.statusCode > 0 {
      var digits := Decimal.FormatInt(l.statusCode);
      CodePlain(l.statusCode);
      FieldStep("status", l.status, PairText("status_code", digits));
      LastQuote("status_code", digits);
    }
  }

  lemma LastQuote(k: string, v: string)
    ensures ("\"," + (k + ("=\"" + v))) + "\"" == "\"," + (k + ("=\"" + (v + "\"")))
  {
  }

  /** The key is the label list of the exposition line. */
  lemma KeyText(l: RequestLabels)
    ensures forall k :: k in KeyOrder(l) ==> k in LabelMap(l)
    ensures ToKey(l) == PairsText(LabelMap(l), KeyOrder(l))
  {
    OrderedPairs(l);
    StatusField(l);
    var e := PairText("env", l.env) + ("," + StatusText(l));
    FieldStep("env", l.env, StatusText(l));
    var t := PairText("tenant", l.tenant) + ("," + e);
    FieldStep("tenant", l.tenant, e);
    var m := PairText("model", l.model) + ("," + t);
    FieldStep("model", l.model, t);
    FieldStep("provider", l.provider, m);
  }

  lemma KeyNames(l: RequestLabels)
    ensures KeysOk(LabelMap(l)) && Restricted(LabelMap(l), KeyOrder(l)) == LabelMap(l)
    requires forall k :: k in KeyOrder(l) ==> k in LabelMap(l)
  {
    PlainNames();
    assert forall k :: k in LabelMap(l) ==> k in KeyOrder(l);
  }

  lemma PlainNames()
    ensures forall k :: k in {"provider", "model", "tenant", "env", "status", "status_code"} ==> '=' !in k && '\n' !in k
  {
  }

  /** A scraper reads a series line of the registry back to the labels observed. */
  lemma KeyRoundTrip(l: RequestLabels, rest: string)
    ensures ParseLabels(ToKey(l) + ("}" + rest)) == Some(Parsed(LabelMap(l), rest))
  {
    KeyText(l);
    KeyNames(l);
    PairsRoundTrip(LabelMap(l), KeyOrder(l), rest);
  }

  /** A request without a response and one with a negative code share a series. */
  function Normal(l: RequestLabels): RequestLabels
  {
    if l.statusCode > 0 then l else l.(statusCode := 0)
  }

  lemma SameMap(a: RequestLabels, b: RequestLabels)
    requires LabelMap(a) == LabelMap(b)
    ensures Normal(a) == Normal(b)
  {
    var x, y := LabelMap(a), LabelMap(b);
    assert x["provider"] == y["provider"] && x["model"] == y["model"] && x["tenant"] == y["tenant"];
    assert x["env"] == y["env"] && x["status"] == y["status"];
    assert "status_code" in x <==> "status_code" in y;
    Decimal.ParseFormatInt(a.statusCode);
    Decimal.ParseFormatInt(b.statusCode);
  }

  lemma NormalKey(l: RequestLabels)
    ensures ToKey(Normal(l)) == ToKey(l)
  {
  }

  /** Two requests share a series exactly when they agree on every label, negative codes
      counted as none: toKey is injective on non-negative codes. */
  lemma KeyInjective(a: RequestLabels, b: RequestLabels)
    ensures ToKey(a) == ToKey(b) <==> Normal(a) == Normal(b)
  {
    if ToKey(a) == ToKey(b) {
      KeyRoundTrip(a, "");
      KeyRoundTrip(b, "");
      SameMap(a, b);
    }
    NormalKey(a);
    NormalKey(b);
  }
}
