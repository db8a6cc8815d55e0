/** The per-row chain hash (audit-service hasher.go): which document is hashed and
    what equal hash inputs tell about the rows behind them. */
module Hasher {
  import opened Json
  import Canonical
  import Decimal

  newtype byte = x: int | 0 <= x < 256
  type Bytes = seq<byte>

  const HASH_SIZE: nat := 32

  type Digest = d: Bytes | |d| == HASH_SIZE witness seq(HASH_SIZE, _ => 0)

  function ZeroHash(): Digest
  {
    seq(HASH_SIZE, _ => 0)
  }

  type Doc = map<string, Canonical.Tree>

  /** The library routines the hasher calls. */
  datatype Library = Library(
    sha256: string -> Digest,
    base64: Bytes -> string,
    rfc3339: int -> string
  )

  /** Standard base64 and RFC 3339 with nanoseconds in UTC lose nothing. */
  ghost predicate Faithful(lib: Library)
  {
    && (forall a, b :: lib.base64(a) == lib.base64(b) ==> a == b)
    && (forall s, t :: lib.rfc3339(s) == lib.rfc3339(t) ==> s == t)
  }

  /** None stands for a nil map. Instants are nanoseconds. */
  datatype Entry = Entry(
    tenant: string,
    id: int,
    actor: Option<Doc>,
    action: string,
    resource: Option<Doc>,
    payload: Option<Doc>,
    prevHash: Bytes,
    createdAt: int
  )

  function Sanitize(m: Option<Doc>): Doc
  {
    match m
    case None => map[]
    case Some(d) => d
  }

  function Document(lib: Library, e: Entry): Canonical.Tree
  {
    Obj(map[
          "tenant_id" := Str(e.tenant),
          "id" := Num(Decimal.FormatInt(e.id)),
          "actor" := Obj(Sanitize(e.actor)),
          "action" := Str(e.action),
          "resource" := Obj(Sanitize(e.resource)),
          "payload" := Obj(Sanitize(e.payload)),
          "prev_hash" := Str(lib.base64(e.prevHash)),
          "created_at" := Str(lib.rfc3339(e.createdAt))
        ])
  }

  /** The bytes the hash is computed over, or None when prev_hash has the wrong size. */
  ghost function Text(lib: Library, e: Entry): Option<string>
  {
    if |e.prevHash| != HASH_SIZE then None
    else Some(Canonical.Encode(Document(lib, e)))
  }

  ghost function Compute(lib: Library, e: Entry): Option<Digest>
  {
    match Text(lib, e)
    case None => None
    case Some(body) => Some(lib.sha256(body))
  }

  method ComputeHash(lib: Library, e: Entry) returns (r: Option<Digest>)
    ensures r == Compute(lib, e)
  {
    if |e.prevHash| != HASH_SIZE {
      return None;
    }
    var w := new Canonical.Builder();
    Canonical.WriteValue(w, Document(lib, e));
    assert w.text == Canonical.Encode(Document(lib, e));
    r := Some(lib.sha256(w.text));
  }

  ghost predicate WellFormedDoc(d: Doc)
  {
    forall k :: k in d ==> Canonical.WellFormed(d[k])
  }

  ghost predicate WellFormed(e: Entry)
  {
    WellFormedDoc(Sanitize(e.actor)) && WellFormedDoc(Sanitize(e.resource)) && WellFormedDoc(Sanitize(e.payload))
  }

  lemma DocumentWellFormed(lib: Library, e: Entry)
    requires WellFormed(e)
    ensures Canonical.WellFormed(Document(lib, e))
  {
    assert Canonical.IsLexeme(Decimal.FormatInt(e.id));
  }

  /** The hash does not distinguish a nil map from an empty one. */
  function Normal(e: Entry): Entry
  {
    e.(actor := Some(Sanitize(e.actor)), resource := Some(Sanitize(e.resource)), payload := Some(Sanitize(e.payload)))
  }

  /** Equal hash inputs come from equal entries: every field is bound by the hash. */
  lemma TextInjective(lib: Library, a: Entry, b: Entry)
    requires Faithful(lib) && WellFormed(a) && WellFormed(b)
    requires Text(lib, a).Some? && Text(lib, a) == Text(lib, b)
    ensures Normal(a) == Normal(b)
  {
    DocumentWellFormed(lib, a);
    DocumentWellFormed(lib, b);
    Canonical.Injective(Document(lib, a), Document(lib, b));
    DocumentInjective(lib, a, b);
  }

  lemma DocumentFields(lib: Library, e: Entry, d: Doc)
    requires Document(lib, e) == Obj(d)
    ensures {"tenant_id", "id", "actor", "action", "resource", "payload", "prev_hash", "created_at"} == d.Keys
    ensures d["tenant_id"] == Str(e.tenant) && d["id"] == Num(Decimal.FormatInt(e.id))
    ensures d["actor"] == Obj(Sanitize(e.actor)) && d["action"] == Str(e.action)
    ensures d["resource"] == Obj(Sanitize(e.resource)) && d["payload"] == Obj(Sanitize(e.payload))
    ensures d["prev_hash"] == Str(lib.base64(e.prevHash)) && d["created_at"] == Str(lib.rfc3339(e.createdAt))
  {
  }

  lemma DocumentInjective(lib: Library, a: Entry, b: Entry)
    requires Faithful(lib) && Document(lib, a) == Document(lib, b)
    ensures Normal(a) == Normal(b)
  {
    var d := Document(lib, a).fields;
    DocumentFields(lib, a, d);
    DocumentFields(lib, b, d);
    Decimal.ParseFormatInt(a.id);
    Decimal.ParseFormatInt(b.id);
  }

  /** Two different hash inputs with the same hash. */
  ghost predicate Clash(lib: Library, a: Entry, b: Entry)
  {
    var s, t := Text(lib, a), Text(lib, b);
    s.Some? && t.Some? && s != t && lib.sha256(s.value) == lib.sha256(t.value)
  }
}
