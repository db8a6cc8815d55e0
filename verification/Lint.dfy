/** The event and metric linter (packages/telemetry/schema-lint), and the aggregator's
    own forbidden-field walk beside it.

`lower` is strings.ToLower. Events are decoded JSON objects; a payload that decodes to
null behaves as the empty object. */
module Lint {
  import opened Json
  import opened Contracts
  import Decimal

  type Value = Json<real>
  type Event = map<string, Value>
  type Lower = string -> string

  datatype Code =
    | UnknownTopic | MissingTenant | MissingField | ForbiddenField | UnauthorizedLabel
    | UnknownMetric | BadType | MissingHashedId | SchemaVersionDrift

  datatype Issue = Issue(code: Code, path: string)

  predicate Banned(lower: Lower, k: string)
  {
    lower(k) in FORBIDDEN_FIELDS
  }

  // ------------------------------------------------ the two forbidden walks

  /** aggregator.hasForbiddenField. */
  predicate HasForbidden(lower: Lower, node: Value)
    decreases node
  {
    match node
    case Obj(m) => exists k :: k in m && (Banned(lower, k) || HasForbidden(lower, m[k]))
    case Arr(a) => exists i :: 0 <= i < |a| && HasForbidden(lower, a[i])
    case _ => false
  }

  function JoinPath(base: string, key: string): string
  {
    if base == "" then key else base + "." + key
  }

  function IndexPath(base: string, i: nat): string
  {
    base + "[" + Decimal.FormatInt(i) + "]"
  }

  /** The paths schemalint.checkForbiddenFields reports. */
  ghost function ForbiddenPaths(lower: Lower, node: Value, path: string): set<string>
    decreases node, 1
  {
    match node
    case Obj(m) => FieldPaths(lower, node, path, m.Keys)
    case Arr(a) => ElementPaths(lower, node, path, |a|)
    case _ => {}
  }

  ghost function FieldPaths(lower: Lower, node: Value, path: string, keys: set<string>): set<string>
    requires node.Obj? && keys <= node.fields.Keys
    decreases node, 0
  {
    (set k | k in keys && Banned(lower, k) :: JoinPath(path, k))
    + (set k, p | k in keys && p in ForbiddenPaths(lower, node.fields[k], JoinPath(path, k)) :: p)
  }

  ghost function ElementPaths(lower: Lower, node: Value, path: string, n: nat): set<string>
    requires node.Arr? && n <= |node.elems|
    decreases node, 0
  {
    set i, p | 0 <= i < n && p in ForbiddenPaths(lower, node.elems[i], IndexPath(path, i)) :: p
  }

  lemma FieldPathsStep(lower: Lower, node: Value, path: string, keys: set<string>, k: string)
    requires node.Obj? && keys <= node.fields.Keys && k in node.fields
    ensures FieldPaths(lower, node, path, keys + {k}) ==
            FieldPaths(lower, node, path, keys)
            + (if Banned(lower, k) then {JoinPath(path, k)} else {})
            + ForbiddenPaths(lower, node.fields[k], JoinPath(path, k))
  {
  }

  lemma ElementPathsStep(lower: Lower, node: Value, path: string, n: nat)
    requires node.Arr? && n < |node.elems|
    ensures ElementPaths(lower, node, path, n + 1) ==
            ElementPaths(lower, node, path, n) + ForbiddenPaths(lower, node.elems[n], IndexPath(path, n))
  {
    var before, after := ElementPaths(lower, node, path, n), ElementPaths(lower, node, path, n + 1);
    forall p | p in after
      ensures p in before || p in ForbiddenPaths(lower, node.elems[n], IndexPath(path, n))
    {
      var i :| 0 <= i < n + 1 && p in ForbiddenPaths(lower, node.elems[i], IndexPath(path, i));
    }
  }

  lemma PathsAppend(a: seq<Issue>, b: seq<Issue>)
    ensures Paths(a + b) == Paths(a) + Paths(b)
  {
  }

  ghost function Paths(issues: seq<Issue>): set<string>
  {
    set i | i in issues :: i.path
  }

  /** checkForbiddenFields: it visits a map in any order and collects every finding. */
  method CheckForbiddenFields(lower: Lower, node: Value, path: string) returns (issues: seq<Issue>)
    ensures Paths(issues) == ForbiddenPaths(lower, node, path)
    ensures forall i :: i in issues ==> i.code == ForbiddenField
    decreases node
  {
    issues := [];
    match node {
      case Obj(m) =>
        var rest := m.Keys;
        while rest != {}
          invariant rest <= m.Keys
          invariant Paths(issues) == FieldPaths(lower, node, path, m.Keys - rest)
          invariant forall i :: i in issues ==> i.code == ForbiddenField
          decreases rest
        {
          var k :| k in rest;
          ghost var done := m.Keys - rest;
          if Banned(lower, k) {
            PathsAppend(issues, [Issue(ForbiddenField, JoinPath(path, k))]);
            issues := issues + [Issue(ForbiddenField, JoinPath(path, k))];
          }
          var more := CheckForbiddenFields(lower, m[k], JoinPath(path, k));
          PathsAppend(issues, more);
          issues := issues + more;
          rest := rest - {k};
          FieldPathsStep(lower, node, path, done, k);
          assert m.Keys - rest == done + {k};
        }
      case Arr(a) =>
        var i := 0;
        while i < |a|
          invariant 0 <= i <= |a|
          invariant Paths(issues) == ElementPaths(lower, node, path, i)
          invariant forall x :: x in issues ==> x.code == ForbiddenField
        {
          var more := CheckForbiddenFields(lower, a[i], IndexPath(path, i));
          PathsAppend(issues, more);
          issues := issues + more;
          ElementPathsStep(lower, node, path, i);
          i := i + 1;
        }
      case _ =>
    }
  }

  /** A path in the tree that ends in a banned key. */
  ghost predicate Witness(lower: Lower, node: Value, path: seq<Step>)
  {
    path != [] && At(node, path).Some? && path[|path| - 1].Key? && Banned(lower, path[|path| - 1].k)
  }

  lemma {:induction false} FoundHasWitness(lower: Lower, node: Value) returns (path: seq<Step>)
    requires HasForbidden(lower, node)
    ensures Witness(lower, node, path)
    decreases node
  {
    match node {
      case Obj(m) =>
        var k :| k in m && (Banned(lower, k) || HasForbidden(lower, m[k]));
        if Banned(lower, k) {
          path := [Key(k)];
          assert At(m[k], path[1..]) == Some(m[k]);
        } else {
          var rest := FoundHasWitness(lower, m[k]);
          path := [Key(k)] + rest;
          assert path[1..] == rest;
        }
      case Arr(a) =>
        var i :| 0 <= i < |a| && HasForbidden(lower, a[i]);
        var rest := FoundHasWitness(lower, a[i]);
        path := [Index(i)] + rest;
        assert path[1..] == rest;
    }
  }

  lemma {:induction false} WitnessIsFound(lower: Lower, node: Value, path: seq<Step>)
    requires Witness(lower, node, path)
    ensures HasForbidden(lower, node)
    decreases |path|
  {
    var rest := path[1..];
    if rest != [] {
      assert rest[|rest| - 1] == path[|path| - 1];
      match node
      case Obj(m) => WitnessIsFound(lower, m[path[0].k], rest);
      case Arr(a) => WitnessIsFound(lower, a[path[0].i], rest);
    }
  }

  /** The two walks agree on every tree: each finds something exactly when some path
      ends in a banned key. */
  lemma {:induction false} WalksAgree(lower: Lower, node: Value, path: string)
    ensures HasForbidden(lower, node) <==> ForbiddenPaths(lower, node, path) != {}
    ensures HasForbidden(lower, node) <==> exists steps :: Witness(lower, node, steps)
    decreases node
  {
    if HasForbidden(lower, node) {
      var steps := FoundHasWitness(lower, node);
    }
    if steps :| Witness(lower, node, steps) {
      WitnessIsFound(lower, node, steps);
    }
    match node
    case Obj(m) =>
      forall k | k in m
        ensures HasForbidden(lower, m[k]) <==> ForbiddenPaths(lower, m[k], JoinPath(path, k)) != {}
      {
        WalksAgree(lower, m[k], JoinPath(path, k));
      }
      FieldsAgree(lower, node, path);
    case Arr(a) =>
      forall i | 0 <= i < |a|
        ensures HasForbidden(lower, a[i]) <==> ForbiddenPaths(lower, a[i], IndexPath(path, i)) != {}
      {
        WalksAgree(lower, a[i], IndexPath(path, i));
      }
      ElementsAgree(lower, node, path);
    case _ =>
  }

  lemma FieldsAgree(lower: Lower, node: Value, path: string)
    requires node.Obj?
    requires forall k :: k in node.fields ==>
               (HasForbidden(lower, node.fields[k]) <==> ForbiddenPaths(lower, node.fields[k], JoinPath(path, k)) != {})
    ensures HasForbidden(lower, node) <==> ForbiddenPaths(lower, node, path) != {}
  {
    var m := node.fields;
    var found := FieldPaths(lower, node, path, m.Keys);
    assert ForbiddenPaths(lower, node, path) == found;
    if k :| k in m && (Banned(lower, k) || HasForbidden(lower, m[k])) {
      if Banned(lower, k) {
        assert JoinPath(path, k) in found;
      } else {
        var p :| p in ForbiddenPaths(lower, m[k], JoinPath(path, k));
        assert p in found;
      }
    }
    if found != {} {
      var p :| p in found;
      assert exists k :: k in m && (Banned(lower, k) || p in ForbiddenPaths(lower, m[k], JoinPath(path, k)));
    }
  }

  lemma ElementsAgree(lower: Lower, node: Value, path: string)
    requires node.Arr?
    requires forall i :: 0 <= i < |node.elems| ==>
               (HasForbidden(lower, node.elems[i]) <==> ForbiddenPaths(lower, node.elems[i], IndexPath(path, i)) != {})
    ensures HasForbidden(lower, node) <==> ForbiddenPaths(lower, node, path) != {}
  {
    var a := node.elems;
    var found := ElementPaths(lower, node, path, |a|);
    assert ForbiddenPaths(lower, node, path) == found;
    if i :| 0 <= i < |a| && HasForbidden(lower, a[i]) {
      var p :| p in ForbiddenPaths(lower, a[i], IndexPath(path, i));
      assert p in found;
    }
    if found != {} {
      var p :| p in found;
      assert exists i :: 0 <= i < |a| && p in ForbiddenPaths(lower, a[i], IndexPath(path, i));
    }
  }

  // ------------------------------------------------ LintEvent

  predicate IsZero(v: Value)
  {
    match v
    case Null => true
    case Str(s) => s == ""
    case Arr(a) => a == []
    case Obj(m) => m == map[]
    case _ => false
  }

  predicate Filled(event: Event, key: string)
  {
    key in event && !IsZero(event[key])
  }

  /** Missing, null, the empty string, the empty list and the empty object are not filled; zero
      and false are. */
  lemma FilledMeans(event: Event, key: string)
    ensures !Filled(event, key) <==>
            key !in event || event[key] == Null || event[key] == Str("") || event[key] == Arr([]) || event[key] == Obj(map[])
  {
  }

  function Required(topic: string): seq<string>
  {
    if topic == USAGE then USAGE_REQUIRED
    else if topic == RUNTIME then RUNTIME_REQUIRED
    else []
  }

  function MissingFrom(event: Event, required: seq<string>): seq<Issue>
  {
    if required == [] then []
    else
      var n := |required| - 1;
      var key := required[n];
      MissingFrom(event, required[..n])
      + (if Filled(event, key) then [] else [Issue(if key == "tenant" then MissingTenant else MissingField, key)])
  }

  method CheckMandatoryFields(topic: string, event: Event) returns (issues: seq<Issue>)
    ensures issues == MissingFrom(event, Required(topic))
    ensures issues == [] <==> forall k :: k in Required(topic) ==> Filled(event, k)
  {
    var required := Required(topic);
    issues := [];
    var i := 0;
    while i < |required|
      invariant 0 <= i <= |required|
      invariant issues == MissingFrom(event, required[..i])
    {
      var key := required[i];
      if key !in event || IsZero(event[key]) {
        issues := issues + [Issue(if key == "tenant" then MissingTenant else MissingField, key)];
      }
      i := i + 1;
      assert required[..i][..i - 1] == required[..i - 1];
    }
    assert required[..i] == required;
    MissingNone(event, required);
  }

  lemma {:induction false} MissingNone(event: Event, required: seq<string>)
    ensures MissingFrom(event, required) == [] <==> forall k :: k in required ==> Filled(event, k)
  {
    if required != [] {
      var n := |required| - 1;
      MissingNone(event, required[..n]);
      assert required == required[..n] + [required[n]];
    }
  }

  function CheckSchemaVersion(event: Event): seq<Issue>
  {
    if "schema_version" !in event then []
    else
      match event["schema_version"]
      case Str(s) => if s == SCHEMA_VERSION then [] else [Issue(SchemaVersionDrift, "schema_version")]
      case _ => [Issue(BadType, "schema_version")]
  }

  predicate IsHex64(s: string)
  {
    |s| == 64 && forall i :: 0 <= i < |s| ==> '0' <= s[i] <= '9' || 'a' <= s[i] <= 'f'
  }

  function CheckRequestIdHash(event: Event): seq<Issue>
  {
    if "request_id_hash" !in event then []
    else
      match event["request_id_hash"]
      case Str(s) => if IsHex64(s) then [] else [Issue(MissingHashedId, "request_id_hash")]
      case _ => [Issue(BadType, "request_id_hash")]
  }

  /** The rules an event must meet. */
  ghost predicate EventOk(lower: Lower, topic: string, event: Event)
  {
    && topic in TOPICS
    && !HasForbidden(lower, Obj(event))
    && (forall k :: k in Required(topic) ==> Filled(event, k))
    && ("schema_version" in event ==> event["schema_version"] == Str(SCHEMA_VERSION))
    && ("request_id_hash" in event ==> event["request_id_hash"].Str? && IsHex64(event["request_id_hash"].s))
  }

  lemma NoPaths(issues: seq<Issue>)
    ensures issues == [] <==> Paths(issues) == {}
  {
    if issues != [] { assert issues[0].path in Paths(issues); }
  }

  /** LintEvent on a payload that decoded to `event` (None: not a JSON object). */
  method LintEvent(lower: Lower, topic: string, event: Option<Event>) returns (issues: seq<Issue>)
    ensures issues == [] <==> event.Some? && EventOk(lower, topic, event.value)
    ensures event.Some? && !HasForbidden(lower, Obj(event.value)) ==> forall i :: i in issues ==> i.code != ForbiddenField
  {
    if topic !in TOPICS {
      return [Issue(UnknownTopic, "topic")];
    }
    if event.None? {
      return [Issue(BadType, "$")];
    }
    var e := event.value;
    var forbidden := CheckForbiddenFields(lower, Obj(e), "");
    WalksAgree(lower, Obj(e), "");
    NoPaths(forbidden);
    var missing := CheckMandatoryFields(topic, e);
    MissingCodes(e, Required(topic));
    issues := forbidden + missing + CheckSchemaVersion(e) + CheckRequestIdHash(e);
  }

  lemma {:induction false} MissingCodes(event: Event, required: seq<string>)
    ensures forall i :: i in MissingFrom(event, required) ==> i.code != ForbiddenField
  {
    if required != [] { MissingCodes(event, required[..|required| - 1]); }
  }

  // ------------------------------------------------ LintMetric

  /** LintMetric passes: the metric is registered, every label is allowed and harmless,
      and every mandatory label is present and non-empty. */
  predicate MetricOk(lower: Lower, metric: string, labels: Labels)
  {
    && AllowedLabels(metric).Some?
    && labels.Keys <= AllowedLabels(metric).value
    && (forall k :: k in MANDATORY_LABELS ==> k in labels && labels[k] != "")
    && (forall k :: k in labels ==> !Banned(lower, k))
  }
}
