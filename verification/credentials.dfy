/** The encrypted credential store, and the plaintext map it stands for. */
module Credentials {
  import opened Basics
  import opened Errors
  import opened Secret
  import opened Store
  import opened Cooldown

  /** What one SetValues call meets per field: the nonce drawn for it, and whether its upsert fails. */
  datatype WriteEnv = WriteEnv(draw: Bytes -> Result<Nonce, int>, upsert: Bytes -> Fault)

  /** The AEAD and the master key a service is built with. */
  datatype Vault = Vault(g: Aead, key: Bytes)

  function SealField(v: Vault, id: Bytes, field: Bytes, value: Bytes, env: WriteEnv): Result<Bytes, Error> {
    Seal(v.g, v.key, env.draw(field), value, AAD(id, field))
  }

  /** The table after visiting the fields of `order` one by one, stopping at the first failure. */
  function WriteFields(v: Vault, creds: Creds, id: Bytes, values: map<Bytes, Bytes>, order: seq<Bytes>, env: WriteEnv)
    : (Creds, Option<Error>)
    requires forall f :: f in order ==> f in values
    decreases order
  {
    if order == [] then (creds, None)
    else
      var f := order[0];
      match SealField(v, id, f, values[f], env)
      case Err(e) => (creds, Some(Wrapped(e)))
      case Ok(blob) =>
        if env.upsert(f).Some? then (creds, Some(Wrapped(StoreError(env.upsert(f).value))))
        else WriteFields(v, creds[(id, f) := blob], id, values, order[1..], env)
  }

  /** order visits every key of values once: what ranging over a Go map may produce. */
  ghost predicate IterationOrder(order: seq<Bytes>, values: map<Bytes, Bytes>) {
    && (forall f :: f in order <==> f in values)
    && (forall i, j :: 0 <= i < j < |order| ==> order[i] != order[j])
  }

  function RevealValue(v: Vault, creds: Creds, id: Bytes, field: Bytes, fault: Fault): Result<Bytes, Error> {
    match GetBlob(creds, id, field, fault)
    case Err(e) => Err(Wrapped(e))
    case Ok(blob) =>
      match Open(v.g, v.key, blob, AAD(id, field))
      case Err(e) => Err(Wrapped(e))
      case Ok(plaintext) => Ok(plaintext)
  }

  // -------------------------------------------------------------------------------------------------
  // The plaintext map behind the ciphertext

  type Plain = map<(Bytes, Bytes), Bytes>

  function OpenRow(v: Vault, creds: Creds, k: (Bytes, Bytes)): Result<Bytes, Error>
    requires k in creds
  {
    Open(v.g, v.key, creds[k], AAD(k.0, k.1))
  }

  /** Store invariant: the ideal AEAD, a key of the right size, and every blob opens in the row it is stored in. */
  ghost predicate Readable(v: Vault, creds: Creds) {
    && Ideal(v.g) && |v.key| == KEY_SIZE
    && forall k :: k in creds ==> OpenRow(v, creds, k).Ok?
  }

  ghost function Plaintext(v: Vault, creds: Creds): Plain
    requires Readable(v, creds)
  {
    map k | k in creds :: OpenRow(v, creds, k).value
  }

  /** Reveal is lookup in the plaintext map. */
  lemma RevealIsLookup(v: Vault, creds: Creds, id: Bytes, field: Bytes)
    requires Readable(v, creds)
    ensures var p := Plaintext(v, creds);
      RevealValue(v, creds, id, field, None)
        == if (id, field) in p then Ok(p[(id, field)]) else Err(Wrapped(NotFound))
  {
  }

  /** Every way in which Reveal fails: the read, the absence of a value, and each failure of Open, wrapped once. */
  lemma RevealFailures(v: Vault, creds: Creds, id: Bytes, field: Bytes, fault: Fault)
    ensures var r := RevealValue(v, creds, id, field, fault);
      && (fault.Some? ==> r == Err(Wrapped(StoreError(fault.value))))
      && (fault.None? && (id, field) !in creds ==> r == Err(Wrapped(NotFound)))
      && (fault.None? && (id, field) in creds ==>
            match Open(v.g, v.key, creds[(id, field)], AAD(id, field))
            case Ok(value) => r == Ok(value)
            case Err(e) => r == Err(Wrapped(e)))
  {
  }

  lemma PutField(v: Vault, creds: Creds, id: Bytes, field: Bytes, value: Bytes, env: WriteEnv)
    requires Readable(v, creds)
    requires SealField(v, id, field, value, env).Ok?
    ensures var creds' := creds[(id, field) := SealField(v, id, field, value, env).value];
      Readable(v, creds') && Plaintext(v, creds') == Plaintext(v, creds)[(id, field) := value]
  {
    var nonce := env.draw(field).value;
    OpenSealed(v.g, v.key, nonce, value, AAD(id, field));
    var creds' := creds[(id, field) := SealField(v, id, field, value, env).value];
    forall k | k in creds'
      ensures OpenRow(v, creds', k).Ok?
      ensures OpenRow(v, creds', k).value == if k == (id, field) then value else OpenRow(v, creds, k).value
    {
      if k != (id, field) {
        assert OpenRow(v, creds, k).Ok?;
      }
    }
  }

  /** The plaintext map after storing `done`, a part of values, for one provider. */
  ghost function Stored(p: Plain, id: Bytes, values: map<Bytes, Bytes>, done: set<Bytes>): Plain
    requires done <= values.Keys
  {
    p + map k | k in (set f | f in done :: (id, f)) :: values[k.1]
  }

  ghost function Elements(s: seq<Bytes>): set<Bytes> {
    set f | f in s
  }

  /** Why storing this field fails, if it does: its sealing comes before its upsert. */
  function FieldFailure(v: Vault, id: Bytes, field: Bytes, value: Bytes, env: WriteEnv): Option<Error> {
    match SealField(v, id, field, value, env)
    case Err(e) => Some(Wrapped(e))
    case Ok(_) => if env.upsert(field).Some? then Some(Wrapped(StoreError(env.upsert(field).value))) else None
  }

  /** How many fields of the order are written before the call ends. */
  function Written(v: Vault, id: Bytes, values: map<Bytes, Bytes>, order: seq<Bytes>, env: WriteEnv): (n: nat)
    requires forall f :: f in order ==> f in values
    ensures n <= |order|
    decreases order
  {
    if order == [] || FieldFailure(v, id, order[0], values[order[0]], env).Some? then 0
    else 1 + Written(v, id, values, order[1..], env)
  }

  /** All are written, or the call ends with the failure of the first field that cannot be sealed or stored. */
  lemma {:induction false} WrittenOrFailed(
    v: Vault, creds: Creds, id: Bytes, values: map<Bytes, Bytes>, order: seq<Bytes>, env: WriteEnv)
    requires forall f :: f in order ==> f in values
    ensures var n, err := Written(v, id, values, order, env), WriteFields(v, creds, id, values, order, env).1;
      && (forall j :: 0 <= j < n ==> FieldFailure(v, id, order[j], values[order[j]], env).None?)
      && (n == |order| ==> err.None?)
      && (n < |order| ==> err.Some? && err == FieldFailure(v, id, order[n], values[order[n]], env))
    decreases order
  {
    if order != [] && Written(v, id, values, order, env) > 0 {
      var blob := SealField(v, id, order[0], values[order[0]], env).value;
      WrittenOrFailed(v, creds[(id, order[0]) := blob], id, values, order[1..], env);
    }
  }

  /** Those fields themselves. */
  ghost function WrittenSet(v: Vault, id: Bytes, values: map<Bytes, Bytes>, order: seq<Bytes>, env: WriteEnv): (w: set<Bytes>)
    requires forall f :: f in order ==> f in values
    ensures w <= values.Keys
  {
    Elements(order[..Written(v, id, values, order, env)])
  }

  lemma WrittenSetStep(v: Vault, id: Bytes, values: map<Bytes, Bytes>, order: seq<Bytes>, env: WriteEnv)
    requires forall f :: f in order ==> f in values
    requires order != [] && FieldFailure(v, id, order[0], values[order[0]], env).None?
    ensures WrittenSet(v, id, values, order, env) == {order[0]} + WrittenSet(v, id, values, order[1..], env)
  {
    var n := Written(v, id, values, order, env);
    assert order[..n] == [order[0]] + order[1..][..n - 1];
  }

  /**
    SetValues on ciphertext is an update of the plaintext map with the fields written so far: all of them on success,
    none from the failing one on otherwise, so each field has its old or its new value. Nothing else changes.
  */
  lemma {:induction false} WriteFieldsRefines(
    v: Vault, creds: Creds, id: Bytes, values: map<Bytes, Bytes>, order: seq<Bytes>, env: WriteEnv)
    requires Readable(v, creds)
    requires forall f :: f in order ==> f in values
    ensures var creds' := WriteFields(v, creds, id, values, order, env).0;
      && Readable(v, creds')
      && Plaintext(v, creds') == Stored(Plaintext(v, creds), id, values, WrittenSet(v, id, values, order, env))
    decreases order
  {
    if order == [] || FieldFailure(v, id, order[0], values[order[0]], env).Some? {
      assert WrittenSet(v, id, values, order, env) == {};
      assert Stored(Plaintext(v, creds), id, values, {}) == Plaintext(v, creds);
    } else {
      var f := order[0];
      PutField(v, creds, id, f, values[f], env);
      WriteFieldsRefines(v, creds[(id, f) := SealField(v, id, f, values[f], env).value], id, values, order[1..], env);
      WrittenSetStep(v, id, values, order, env);
      StoredStep(Plaintext(v, creds), id, values, f, WrittenSet(v, id, values, order[1..], env));
    }
  }

  /** On success every field of the map has been written. */
  lemma SuccessWritesAll(v: Vault, creds: Creds, id: Bytes, values: map<Bytes, Bytes>, order: seq<Bytes>, env: WriteEnv)
    requires IterationOrder(order, values)
    requires WriteFields(v, creds, id, values, order, env).1.None?
    ensures WrittenSet(v, id, values, order, env) == values.Keys
  {
    WrittenOrFailed(v, creds, id, values, order, env);
    assert order[..|order|] == order;
  }

  lemma StoredStep(p: Plain, id: Bytes, values: map<Bytes, Bytes>, f: Bytes, rest: set<Bytes>)
    requires f in values && rest <= values.Keys
    ensures Stored(p[(id, f) := values[f]], id, values, rest) == Stored(p, id, values, {f} + rest)
  {
  }

  /** Deleting a provider removes exactly its fields from the plaintext map. */
  lemma DeleteRefines(v: Vault, creds: Creds, id: Bytes)
    requires Readable(v, creds)
    ensures Readable(v, WithoutProvider(creds, id))
    ensures Plaintext(v, WithoutProvider(creds, id)) == map k | k in Plaintext(v, creds) && k.0 != id :: Plaintext(v, creds)[k]
  {
  }

  /** A blob copied into the row of another provider or field never opens there. */
  lemma MovedBlobNeverOpens(v: Vault, creds: Creds, from: (Bytes, Bytes), to: (Bytes, Bytes))
    requires Readable(v, creds) && from in creds && from != to
    requires NulFree(from.0) && NulFree(to.0)
    ensures RevealValue(v, creds[to := creds[from]], to.0, to.1, None) == Err(Wrapped(DecryptionFailed))
  {
    var blob, home, away := creds[from], AAD(from.0, from.1), AAD(to.0, to.1);
    assert OpenRow(v, creds, from).Ok?;
    var m := OpenRow(v, creds, from).value;
    OpensIffSealed(v.g, v.key, blob, home, m);
    var nonce: Nonce :| Seal(v.g, v.key, Ok(nonce), m, home) == Ok(blob);
    AADInjective(from.0, from.1, to.0, to.1);
    SealedOpensOnlyAtHome(v.g, v.key, nonce, m, home, v.key, away);
    assert creds[to := blob][(to.0, to.1)] == blob;
  }

  // -------------------------------------------------------------------------------------------------
  // Independence from the iteration order

  function BlobOrEmpty(r: Result<Bytes, Error>): Bytes {
    match r
    case Ok(blob) => blob
    case Err(_) => []
  }

  /** The table with one freshly sealed row per field of `done`: a description without any order. */
  ghost function Sealed(v: Vault, creds: Creds, id: Bytes, values: map<Bytes, Bytes>, done: set<Bytes>, env: WriteEnv): Creds
    requires done <= values.Keys
  {
    creds + map k | k in (set f | f in done :: (id, f)) :: BlobOrEmpty(SealField(v, id, k.1, values[k.1], env))
  }

  /** With nothing failing, the rows written are the sealed fields, whatever the order. */
  lemma {:induction false} WriteFieldsUnordered(
    v: Vault, creds: Creds, id: Bytes, values: map<Bytes, Bytes>, order: seq<Bytes>, env: WriteEnv)
    requires forall f :: f in order ==> f in values
    requires WriteFields(v, creds, id, values, order, env).1.None?
    ensures WriteFields(v, creds, id, values, order, env).0 == Sealed(v, creds, id, values, Elements(order), env)
    decreases order
  {
    if order == [] {
      assert Sealed(v, creds, id, values, {}, env) == creds;
    } else {
      var f := order[0];
      var creds1 := creds[(id, f) := SealField(v, id, f, values[f], env).value];
      WriteFieldsUnordered(v, creds1, id, values, order[1..], env);
      ElementsStep(order);
      SealedStep(v, creds, id, values, f, Elements(order[1..]), env);
    }
  }

  lemma ElementsStep(order: seq<Bytes>)
    requires order != []
    ensures Elements(order) == {order[0]} + Elements(order[1..])
  {
    assert order == [order[0]] + order[1..];
  }

  lemma SealedStep(
    v: Vault, creds: Creds, id: Bytes, values: map<Bytes, Bytes>, f: Bytes, rest: set<Bytes>, env: WriteEnv)
    requires f in values && rest <= values.Keys
    ensures var blob := BlobOrEmpty(SealField(v, id, f, values[f], env));
      Sealed(v, creds[(id, f) := blob], id, values, rest, env) == Sealed(v, creds, id, values, {f} + rest, env)
  {
  }

  /** The call fails exactly when some field of the map cannot be sealed or written. */
  lemma {:induction false} WriteFailsIff(
    v: Vault, creds: Creds, id: Bytes, values: map<Bytes, Bytes>, order: seq<Bytes>, env: WriteEnv)
    requires forall f :: f in order ==> f in values
    ensures WriteFields(v, creds, id, values, order, env).1.Some?
       <==> exists f :: f in order && FieldFailure(v, id, f, values[f], env).Some?
    decreases order
  {
    if order != [] {
      var f := order[0];
      if FieldFailure(v, id, f, values[f], env).None? {
        WriteFailsIff(v, creds[(id, f) := SealField(v, id, f, values[f], env).value], id, values, order[1..], env);
        assert forall g :: g in order <==> g == f || g in order[1..];
      } else {
        assert f in order;
      }
    }
  }

  /** Go's random map order is invisible: same success, and on success the same table. */
  lemma IterationOrderIrrelevant(
    v: Vault, creds: Creds, id: Bytes, values: map<Bytes, Bytes>, o1: seq<Bytes>, o2: seq<Bytes>, env: WriteEnv)
    requires IterationOrder(o1, values) && IterationOrder(o2, values)
    ensures var r1, r2 := WriteFields(v, creds, id, values, o1, env), WriteFields(v, creds, id, values, o2, env);
      && (r1.1.None? <==> r2.1.None?)
      && (r1.1.None? ==> r1.0 == r2.0 == Sealed(v, creds, id, values, values.Keys, env))
  {
    WriteFailsIff(v, creds, id, values, o1, env);
    WriteFailsIff(v, creds, id, values, o2, env);
    if WriteFields(v, creds, id, values, o1, env).1.None? {
      WriteFieldsUnordered(v, creds, id, values, o1, env);
      WriteFieldsUnordered(v, creds, id, values, o2, env);
      assert Elements(o1) == values.Keys == Elements(o2);
    }
  }

  // -------------------------------------------------------------------------------------------------
  // The stateful service

  class Service {
    const repo: Repository
    const vault: Vault
    const cooldown: AuthCooldownRegistry?

    constructor (repo: Repository, vault: Vault, cooldown: AuthCooldownRegistry?)
      ensures this.repo == repo && this.vault == vault && this.cooldown == cooldown
    {
      this.repo := repo;
      this.vault := vault;
      this.cooldown := cooldown;
    }

    /** `order` is the iteration order this call happened to use; the cooldown is cleared on success only. */
    method SetValues(providerId: Bytes, values: map<Bytes, Bytes>, env: WriteEnv)
      returns (err: Option<Error>, ghost order: seq<Bytes>)
      modifies repo`creds, cooldown
      ensures IterationOrder(order, values)
      ensures (repo.creds, err) == WriteFields(vault, old(repo.creds), providerId, values, order, env)
      ensures cooldown != null ==>
        cooldown.entries == if err.None? then old(cooldown.entries) - {providerId} else old(cooldown.entries)
    {
      ghost var creds0 := repo.creds;
      ghost var done: seq<Bytes> := [];
      var todo := values.Keys;
      while todo != {}
        invariant Underway(done, todo, values)
        invariant WriteFields(vault, creds0, providerId, values, done, env) == (repo.creds, None)
        invariant cooldown != null ==> cooldown.entries == old(cooldown.entries)
        decreases todo
      {
        var field :| field in todo;
        order := done + ([field] + Listing(todo - {field}));
        NextField(done, todo, values, field);
        WriteNext(vault, creds0, repo.creds, providerId, values, done, field, Listing(todo - {field}), env);
        var aad := BuildAAD(providerId, field);
        var blob := BuildSealed(vault.g, vault.key, env.draw(field), values[field], aad);
        if blob.Err? {
          return Some(Wrapped(blob.error)), order;
        }
        var upserted := repo.Upsert(providerId, field, blob.value, env.upsert(field));
        if upserted.Some? {
          return Some(Wrapped(upserted.value)), order;
        }
        done, todo := done + [field], todo - {field};
      }
      if cooldown != null {
        cooldown.Clear(providerId);
      }
      return None, done;
    }

    method Presence(providerId: Bytes, fault: Fault) returns (r: Result<set<Bytes>, Error>)
      ensures r == if fault.Some? then Err(Wrapped(StoreError(fault.value))) else Ok(StoredFields(repo.creds, providerId))
    {
      var presence := repo.Presence(providerId, fault);
      if presence.Err? {
        return Err(Wrapped(presence.error));
      }
      return presence;
    }

    method Delete(providerId: Bytes, fault: Fault) returns (err: Option<Error>)
      modifies repo`creds
      ensures fault.Some? ==> err == Some(Wrapped(StoreError(fault.value))) && repo.creds == old(repo.creds)
      ensures fault.None? ==> err == None && repo.creds == WithoutProvider(old(repo.creds), providerId)
    {
      var deleted := repo.Delete(providerId, fault);
      if deleted.Some? {
        return Some(Wrapped(deleted.value));
      }
      return None;
    }

    method Reveal(providerId: Bytes, field: Bytes, fault: Fault) returns (r: Result<Bytes, Error>)
      ensures r == RevealValue(vault, repo.creds, providerId, field, fault)
    {
      var blob := repo.GetSecret(providerId, field, fault);
      if blob.Err? {
        return Err(Wrapped(blob.error));
      }
      var aad := BuildAAD(providerId, field);
      var plaintext := Open(vault.g, vault.key, blob.value, aad);
      if plaintext.Err? {
        return Err(Wrapped(plaintext.error));
      }
      return plaintext;
    }
  }

  /** Some enumeration of a set without repetitions. */
  ghost function Listing(s: set<Bytes>): (l: seq<Bytes>)
    ensures forall f :: f in l <==> f in s
    ensures forall i, j :: 0 <= i < j < |l| ==> l[i] != l[j]
  {
    if s == {} then []
    else
      var f :| f in s;
      var rest := Listing(s - {f});
      [f] + rest
  }

  /** The fields visited so far and those still to visit make up the map. */
  ghost predicate Underway(done: seq<Bytes>, todo: set<Bytes>, values: map<Bytes, Bytes>) {
    && todo <= values.Keys
    && (forall f :: f in done <==> f in values && f !in todo)
    && (forall i, j :: 0 <= i < j < |done| ==> done[i] != done[j])
  }

  lemma NextField(done: seq<Bytes>, todo: set<Bytes>, values: map<Bytes, Bytes>, field: Bytes)
    requires Underway(done, todo, values) && field in todo
    ensures Underway(done + [field], todo - {field}, values)
    ensures IterationOrder(done + ([field] + Listing(todo - {field})), values)
  {
    var rest := Listing(todo - {field});
    AppendDistinct([field], rest);
    AppendDistinct(done, [field]);
    AppendDistinct(done, [field] + rest);
  }

  lemma AppendDistinct(a: seq<Bytes>, b: seq<Bytes>)
    requires forall i, j :: 0 <= i < j < |a| ==> a[i] != a[j]
    requires forall i, j :: 0 <= i < j < |b| ==> b[i] != b[j]
    requires forall f :: f in a ==> f !in b
    ensures forall f :: f in a + b <==> f in a || f in b
    ensures forall i, j :: 0 <= i < j < |a + b| ==> (a + b)[i] != (a + b)[j]
  {
    forall i, j | 0 <= i < j < |a + b|
      ensures (a + b)[i] != (a + b)[j]
    {
      if i < |a| <= j {
        assert a[i] in a && b[j - |a|] in b;
      }
    }
  }

  /** With `done` written, the next field ends the call with its failure, or is written too. */
  lemma WriteNext(
    v: Vault, creds0: Creds, creds: Creds, id: Bytes, values: map<Bytes, Bytes>, done: seq<Bytes>, field: Bytes,
    rest: seq<Bytes>, env: WriteEnv)
    requires (forall f :: f in done ==> f in values) && field in values && (forall f :: f in rest ==> f in values)
    requires WriteFields(v, creds0, id, values, done, env) == (creds, None)
    ensures forall f :: f in done + ([field] + rest) ==> f in values
    ensures forall f :: f in done + [field] ==> f in values
    ensures match FieldFailure(v, id, field, values[field], env)
      case Some(e) => WriteFields(v, creds0, id, values, done + ([field] + rest), env) == (creds, Some(e))
      case None =>
        var blob := SealField(v, id, field, values[field], env).value;
        WriteFields(v, creds0, id, values, done + [field], env) == (creds[(id, field) := blob], None)
  {
    WriteFieldsPrefix(v, creds0, id, values, done, [field] + rest, env);
    WriteFieldsPrefix(v, creds0, id, values, done, [field], env);
  }

  /** Visiting a prefix first: if it goes through, the remainder continues from the table it leaves. */
  lemma {:induction false} WriteFieldsPrefix(
    v: Vault, creds: Creds, id: Bytes, values: map<Bytes, Bytes>, done: seq<Bytes>, rest: seq<Bytes>, env: WriteEnv)
    requires forall f :: f in done ==> f in values
    requires forall f :: f in rest ==> f in values
    ensures forall f :: f in done + rest ==> f in values
    ensures var (creds', err) := WriteFields(v, creds, id, values, done, env);
      err.None? ==> WriteFields(v, creds, id, values, done + rest, env) == WriteFields(v, creds', id, values, rest, env)
    decreases done
  {
    if done == [] {
      assert done + rest == rest;
    } else {
      var f := done[0];
      assert (done + rest)[1..] == done[1..] + rest;
      var sealed := SealField(v, id, f, values[f], env);
      if sealed.Ok? && env.upsert(f).None? {
        WriteFieldsPrefix(v, creds[(id, f) := sealed.value], id, values, done[1..], rest, env);
      }
    }
  }
}
