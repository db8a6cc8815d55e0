/** Redaction of audit events before they are appended (audit-service consumer.go).

`lower` is strings.ToLower; every result holds for any such function. */
module Redaction {
  import opened Json
  import Hasher
  import Ledger

  const FORBIDDEN: set<string> := {
    "authorization", "api_key", "apikey", "password", "passwd", "secret",
    "token", "bearer", "client_secret", "prompt", "completion"
  }

  type Lower = string -> string

  predicate IsForbidden(lower: Lower, k: string)
  {
    lower(k) in FORBIDDEN
  }

  function Redact<N>(lower: Lower, v: Json<N>): Json<N>
    decreases v
  {
    match v
    case Obj(m) => Obj(map k | k in m && !IsForbidden(lower, k) :: Redact(lower, m[k]))
    case Arr(a) => Arr(seq(|a|, i requires 0 <= i < |a| => Redact(lower, a[i])))
    case _ => v
  }

  /** redactMap: a nil map stays nil. */
  function RedactMap<N>(lower: Lower, m: Option<map<string, Json<N>>>): Option<map<string, Json<N>>>
  {
    match m
    case None => None
    case Some(d) => Some(Redact(lower, Obj(d)).fields)
  }

  /** The slice case of redactValue: elements are overwritten in place. */
  method RedactSlice<N>(lower: Lower, x: array<Json<N>>)
    modifies x
    ensures Arr(x[..]) == Redact(lower, Arr(old(x[..])))
  {
    ghost var was := x[..];
    var i := 0;
    while i < x.Length
      invariant 0 <= i <= x.Length
      invariant forall j :: 0 <= j < i ==> x[j] == Redact(lower, was[j])
      invariant forall j :: i <= j < x.Length ==> x[j] == was[j]
    {
      x[i] := Redact(lower, x[i]);
      i := i + 1;
    }
    assert x[..] == Redact(lower, Arr(was)).elems;
  }

  /** containsForbidden, as written: it descends into objects and into objects that sit
      directly in an array, but not into arrays nested in arrays. */
  predicate ContainsForbidden<N>(lower: Lower, v: Json<N>)
    decreases v
  {
    v.Obj? &&
    exists k :: k in v.fields && (
      || IsForbidden(lower, k)
      || ContainsForbidden(lower, v.fields[k])
      || (v.fields[k].Arr? &&
          exists i :: 0 <= i < |v.fields[k].elems| && ContainsForbidden(lower, v.fields[k].elems[i])))
  }

  // ------------------------------------------------------------ reference

  /** Some key on the path is forbidden. */
  ghost predicate Passes(lower: Lower, path: seq<Step>)
  {
    exists i :: 0 <= i < |path| && path[i].Key? && IsForbidden(lower, path[i].k)
  }

  /** No forbidden key anywhere in the tree. */
  ghost predicate Clean<N>(lower: Lower, v: Json<N>)
  {
    forall path :: Passes(lower, path) ==> At(v, path).None?
  }

  /** Redaction, seen from every path: what lies behind a forbidden key is gone, and
      what lies on any other path is there, redacted. */
  lemma {:induction false} RedactedAt<N>(lower: Lower, v: Json<N>, path: seq<Step>)
    ensures At(Redact(lower, v), path) ==
            if Passes(lower, path) then None
            else match At(v, path) case None => None case Some(w) => Some(Redact(lower, w))
    decreases |path|
  {
    if path != [] {
      var step, rest := path[0], path[1..];
      assert Passes(lower, path) <==> (step.Key? && IsForbidden(lower, step.k)) || Passes(lower, rest) by {
        if Passes(lower, rest) {
          var i :| 0 <= i < |rest| && rest[i].Key? && IsForbidden(lower, rest[i].k);
          assert path[i + 1] == rest[i];
        }
        assert forall i :: 0 < i < |path| ==> path[i] == rest[i - 1];
      }
      match (v, step)
      case (Obj(m), Key(k)) => if k in m { RedactedAt(lower, m[k], rest); }
      case (Arr(a), Index(i)) => if i < |a| { RedactedAt(lower, a[i], rest); }
      case _ =>
    }
  }

  /** Redaction leaves no forbidden key at any depth, arrays within arrays included. */
  lemma {:induction false} RedactedIsClean<N>(lower: Lower, v: Json<N>)
    ensures Clean(lower, Redact(lower, v))
  {
    forall path | Passes(lower, path)
      ensures At(Redact(lower, v), path).None?
    {
      RedactedAt(lower, v, path);
    }
  }

  lemma {:induction false} RedactIdempotent<N>(lower: Lower, v: Json<N>)
    ensures Redact(lower, Redact(lower, v)) == Redact(lower, v)
    decreases v
  {
    match v
    case Obj(m) =>
      forall k | k in m
        ensures Redact(lower, Redact(lower, m[k])) == Redact(lower, m[k])
      {
        RedactIdempotent(lower, m[k]);
      }
    case Arr(a) =>
      forall i | 0 <= i < |a|
        ensures Redact(lower, Redact(lower, a[i])) == Redact(lower, a[i])
      {
        RedactIdempotent(lower, a[i]);
      }
    case _ =>
  }

  // ------------------------------------------- what containsForbidden sees

  /** No two consecutive array steps. */
  ghost predicate Shallow(path: seq<Step>)
  {
    forall i :: 0 <= i < |path| - 1 ==> !(path[i].Index? && path[i + 1].Index?)
  }

  /** A witness for containsForbidden: it starts at an object key, ends in a forbidden
      key, and never crosses two arrays in a row. */
  ghost predicate Witness<N>(lower: Lower, v: Json<N>, path: seq<Step>)
  {
    && path != [] && path[0].Key? && Shallow(path) && At(v, path).Some?
    && path[|path| - 1].Key? && IsForbidden(lower, path[|path| - 1].k)
  }

  lemma {:induction false} ContainsHasWitness<N>(lower: Lower, v: Json<N>) returns (path: seq<Step>)
    requires ContainsForbidden(lower, v)
    ensures Witness(lower, v, path)
    decreases v
  {
    var m := v.fields;
    var k :| k in m && (
      || IsForbidden(lower, k)
      || ContainsForbidden(lower, m[k])
      || (m[k].Arr? && exists i :: 0 <= i < |m[k].elems| && ContainsForbidden(lower, m[k].elems[i])));
    if IsForbidden(lower, k) {
      path := [Key(k)];
      assert At(m[k], path[1..]) == Some(m[k]);
    } else if ContainsForbidden(lower, m[k]) {
      var rest := ContainsHasWitness(lower, m[k]);
      path := [Key(k)] + rest;
      assert path[1..] == rest;
    } else {
      var i :| 0 <= i < |m[k].elems| && ContainsForbidden(lower, m[k].elems[i]);
      var rest := ContainsHasWitness(lower, m[k].elems[i]);
      var inner := [Index(i)] + rest;
      path := [Key(k)] + inner;
      assert path[1..] == inner && inner[1..] == rest;
    }
  }

  lemma {:induction false} WitnessIsContained<N>(lower: Lower, v: Json<N>, path: seq<Step>)
    requires Witness(lower, v, path)
    ensures ContainsForbidden(lower, v)
    decreases |path|
  {
    var k, rest := path[0].k, path[1..];
    var w := v.fields[k];
    assert At(w, rest).Some?;
    if rest != [] {
      assert rest[|rest| - 1] == path[|path| - 1];
      assert forall i :: 0 <= i < |rest| ==> rest[i] == path[i + 1];
      if rest[0].Key? {
        WitnessIsContained(lower, w, rest);
      } else {
        var inner := rest[1..];
        assert path[1].Index? && path[2] == inner[0];
        assert forall i :: 0 <= i < |inner| ==> inner[i] == path[i + 2];
        WitnessIsContained(lower, w.elems[rest[0].i], inner);
      }
    }
  }

  /** containsForbidden finds exactly the forbidden keys that are not behind two
      consecutive array levels. */
  lemma ContainsExactly<N>(lower: Lower, v: Json<N>)
    ensures ContainsForbidden(lower, v) <==> exists path :: Witness(lower, v, path)
  {
    if ContainsForbidden(lower, v) {
      var path := ContainsHasWitness(lower, v);
    }
    if path :| Witness(lower, v, path) {
      WitnessIsContained(lower, v, path);
    }
  }

  /** So the walk alone is not a full check: this tree hides a password from it. */
  lemma NestedArraysEscape(lower: Lower)
    requires lower("password") == "password" && lower("a") == "a"
    ensures var v := Obj(map["a" := Arr([Arr([Obj(map["password" := Json<int>.Null])])])]);
            !ContainsForbidden(lower, v) && !Clean(lower, v)
  {
    var leaf := Obj(map["password" := Json<int>.Null]);
    var v := Obj(map["a" := Arr([Arr([leaf])])]);
    var path := [Key("a"), Index(0), Index(0), Key("password")];
    assert path[1..] == [Index(0), Index(0), Key("password")];
    assert path[1..][1..] == [Index(0), Key("password")];
    assert path[1..][1..][1..] == [Key("password")];
    assert At(v, path).Some?;
    assert Passes(lower, path) by { assert path[3].k == "password"; }
    assert "a" !in FORBIDDEN;
  }

  /** After redaction the walk finds nothing. */
  lemma RedactedContainsNothing<N>(lower: Lower, v: Json<N>)
    ensures !ContainsForbidden(lower, Redact(lower, v))
  {
    if ContainsForbidden(lower, Redact(lower, v)) {
      var path := ContainsHasWitness(lower, Redact(lower, v));
      RedactedIsClean(lower, v);
      assert Passes(lower, path);
    }
  }

  // ------------------------------------------------------------ handle

  type Doc = Hasher.Doc

  /** A decoded audit.event.v1 envelope. */
  datatype AuditEvent = AuditEvent(
    tenant: string,
    actor: Option<Doc>,
    action: string,
    resource: Option<Doc>,
    payload: Option<Doc>,
    createdAt: string
  )

  /** `validTime` is time.Parse with RFC 3339. A None event is a JSON decoding error. */
  function DecodeRecord(validTime: string -> bool, tenantHeader: string, ev: Option<AuditEvent>): Option<Ledger.Input>
  {
    if ev.None? then None
    else
      var e := ev.value;
      var tenant := if tenantHeader == "" then e.tenant else tenantHeader;
      if tenant == "" || e.action == "" then None
      else
        var actor := Hasher.Sanitize(e.actor);
        var typed := if "type" in actor then actor else actor["type" := Str("system")];
        var payload :=
          if e.createdAt == "" || !validTime(e.createdAt) then e.payload
          else
            var p := Hasher.Sanitize(e.payload);
            Some(if "_producer_ts" in p then p else p["_producer_ts" := Str(e.createdAt)]);
        Some(Ledger.Input(tenant, Some(typed), e.action, e.resource, payload))
  }

  ghost function Field(m: Option<Doc>, k: string): Option<Json<string>>
  {
    if m.Some? && k in m.value then Some(m.value[k]) else None
  }

  /** The producer's time is present and well-formed. */
  ghost predicate Stamped(validTime: string -> bool, e: AuditEvent)
  {
    e.createdAt != "" && validTime(e.createdAt)
  }

  /** A record is decoded exactly when it names an action and, in its header or its body, a
      tenant; the header comes first. Field by field it is then the event, with an actor type
      and a producer time filled in only where the event has none. */
  lemma DecodeExactly(validTime: string -> bool, tenantHeader: string, e: AuditEvent)
    ensures DecodeRecord(validTime, tenantHeader, None).None?
    ensures var r := DecodeRecord(validTime, tenantHeader, Some(e));
            && (r.Some? <==> (tenantHeader != "" || e.tenant != "") && e.action != "")
            && (r.Some? ==>
                  && (tenantHeader != "" ==> r.value.tenant == tenantHeader) && (tenantHeader == "" ==> r.value.tenant == e.tenant)
                  && r.value.action == e.action && r.value.resource == e.resource && r.value.actor.Some?
                  && (r.value.payload.Some? <==> e.payload.Some? || Stamped(validTime, e)))
    ensures var r := DecodeRecord(validTime, tenantHeader, Some(e));
            r.Some? ==> forall k ::
              && Field(r.value.actor, k) == (if k == "type" && Field(e.actor, k).None? then Some(Str("system")) else Field(e.actor, k))
              && Field(r.value.payload, k) ==
                 if k == "_producer_ts" && Field(e.payload, k).None? && Stamped(validTime, e) then Some(Str(e.createdAt))
                 else Field(e.payload, k)
  {
  }

  function RedactInput(lower: Lower, input: Ledger.Input): Ledger.Input
  {
    input.(actor := RedactMap(lower, input.actor), payload := RedactMap(lower, input.payload))
  }

  class Consumer {
    var appends: nat
    var appendFailures: nat
    var redactionRejects: nat
    var validationRejects: nat

    constructor ()
      ensures appends == appendFailures == redactionRejects == validationRejects == 0
    {
      appends, appendFailures, redactionRejects, validationRejects := 0, 0, 0, 0;
    }

    /** One record. `accepts` is the outcome of Sink.Append for the submitted input. */
    method Handle(lower: Lower, validTime: string -> bool, tenantHeader: string, ev: Option<AuditEvent>,
                  accepts: Ledger.Input -> bool)
      returns (submitted: Option<Ledger.Input>)
      modifies this
      ensures match DecodeRecord(validTime, tenantHeader, ev)
              case None =>
                && submitted == None
                && validationRejects == old(validationRejects) + 1
                && redactionRejects == old(redactionRejects)
                && appends == old(appends) && appendFailures == old(appendFailures)
              case Some(input) =>
                var redacted := RedactInput(lower, input);
                && validationRejects == old(validationRejects)
                && (if Leaks(lower, redacted) then
                      && submitted == None
                      && redactionRejects == old(redactionRejects) + 1
                      && appends == old(appends) && appendFailures == old(appendFailures)
                    else
                      && submitted == Some(redacted)
                      && redactionRejects == old(redactionRejects)
                      && appends == old(appends) + (if accepts(redacted) then 1 else 0)
                      && appendFailures == old(appendFailures) + (if accepts(redacted) then 0 else 1))
    {
      var decoded := DecodeRecord(validTime, tenantHeader, ev);
      if decoded.None? {
        validationRejects := validationRejects + 1;
        return None;
      }
      var input := decoded.value;
      input := input.(actor := RedactMap(lower, input.actor));
      input := input.(payload := RedactMap(lower, input.payload));
      if MapLeaks(lower, input.payload) || MapLeaks(lower, input.actor) {
        redactionRejects := redactionRejects + 1;
        return None;
      }
      if accepts(input) {
        appends := appends + 1;
      } else {
        appendFailures := appendFailures + 1;
      }
      return Some(input);
    }
  }

  predicate MapLeaks(lower: Lower, m: Option<Doc>)
  {
    m.Some? && ContainsForbidden(lower, Obj(m.value))
  }

  /** The defence-in-depth check of handle. */
  predicate Leaks(lower: Lower, input: Ledger.Input)
  {
    MapLeaks(lower, input.payload) || MapLeaks(lower, input.actor)
  }

  ghost predicate MapClean(lower: Lower, m: Option<Doc>)
  {
    m.Some? ==> Clean(lower, Obj(m.value))
  }

  lemma RedactedMapClean(lower: Lower, m: Option<Doc>)
    ensures MapClean(lower, RedactMap(lower, m)) && !MapLeaks(lower, RedactMap(lower, m))
  {
    if m.Some? {
      var v: Json<string> := Obj(m.value);
      assert Redact(lower, v) == Obj(RedactMap(lower, m).value);
      RedactedIsClean(lower, v);
      RedactedContainsNothing(lower, v);
    }
  }

  /** The redaction-reject branch of handle is unreachable: for every record, what is
      submitted has no forbidden key at any depth in actor or payload. The resource is
      passed on as it came. */
  lemma RedactionNeverRejects(lower: Lower, validTime: string -> bool, tenantHeader: string, ev: Option<AuditEvent>)
    ensures match DecodeRecord(validTime, tenantHeader, ev)
            case None => true
            case Some(input) =>
              var redacted := RedactInput(lower, input);
              && !Leaks(lower, redacted)
              && MapClean(lower, redacted.actor) && MapClean(lower, redacted.payload)
              && redacted.resource == ev.value.resource
  {
    var decoded := DecodeRecord(validTime, tenantHeader, ev);
    if decoded.Some? {
      RedactedMapClean(lower, decoded.value.actor);
      RedactedMapClean(lower, decoded.value.payload);
    }
  }
}
