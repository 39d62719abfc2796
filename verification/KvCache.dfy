/** The repeat-call cache (`app/services/kv_cache.py`) and the history it stands for. */
module KvCache {
  import opened Prelude

  type Payload = map<string, string>

  /** A row; `expires` is `None` for an entry that never expires. */
  datatype Entry = Entry(payload: Payload, expires: Option<int>)

  /** A call, with the time its clock reading returns. */
  datatype Op =
    | Get(key: string, now: int)
    | Set(key: string, payload: Payload, ttl: Option<int>, now: int)
    | Delete(key: string)

  datatype Reply = Hit(payload: Payload) | Miss | Done | SecretRefused

  /** `_is_secret_key`. */
  type KeyTest = string -> bool

  predicate CarriesSecret(payload: Payload, secret: KeyTest) {
    exists k | k in payload :: secret(k)
  }

  function Expiry(ttl: Option<int>, now: int): Option<int> {
    if ttl.None? then None else Some(now + ttl.value)
  }

  predicate Expired(expires: Option<int>, now: int) {
    expires.Some? && expires.value <= now
  }

  /** One call on the stored rows. */
  function Do(rows: map<string, Entry>, op: Op, secret: KeyTest): (map<string, Entry>, Reply) {
    match op
    case Get(key, now) =>
      if key !in rows then (rows, Miss)
      else if Expired(rows[key].expires, now) then (rows - {key}, Miss)
      else (rows, Hit(rows[key].payload))
    case Set(key, payload, ttl, now) =>
      if CarriesSecret(payload, secret) then (rows, SecretRefused)
      else (rows[key := Entry(payload, Expiry(ttl, now))], Done)
    case Delete(key) => (rows - {key}, Done)
  }

  class KVCache {
    const secret: KeyTest
    var rows: map<string, Entry>

    constructor (secret: KeyTest)
      ensures this.secret == secret && rows == map[]
    {
      this.secret := secret;
      rows := map[];
    }

    /** Reads the clock only for an entry that can expire; deletes the entry when it has. */
    method Get(key: string, clock: int) returns (payload: Option<Payload>)
      modifies this
      ensures var (after, reply) := Do(old(rows), Op.Get(key, clock), secret);
        rows == after && payload == if reply.Hit? then Some(reply.payload) else None
    {
      if key !in rows {
        return None;
      }
      var entry := rows[key];
      if entry.expires.Some? && entry.expires.value <= clock {
        rows := rows - {key};
        return None;
      }
      return Some(entry.payload);
    }

    method Set(key: string, payload: Payload, ttl: Option<int>, clock: int) returns (ok: bool)
      modifies this
      ensures var (after, reply) := Do(old(rows), Op.Set(key, payload, ttl, clock), secret);
        rows == after && ok == (reply == Done)
    {
      if CarriesSecret(payload, secret) {
        return false;
      }
      var expires: Option<int> := None;
      if ttl.Some? {
        expires := Some(clock + ttl.value);
      }
      if key !in rows {
        rows := rows[key := Entry(payload, expires)];
      } else {
        rows := rows[key := rows[key].(payload := payload, expires := expires)];
      }
      return true;
    }

    method Delete(key: string)
      modifies this
      ensures (rows, Done) == Do(old(rows), Op.Delete(key), secret)
    {
      if key in rows {
        rows := rows - {key};
      }
      assert key !in old(rows) ==> old(rows) - {key} == old(rows);
    }
  }

  function Run(ops: seq<Op>, secret: KeyTest): map<string, Entry> {
    if ops == [] then map[] else Do(Run(ops[..|ops| - 1], secret), ops[|ops| - 1], secret).0
  }

  /** What `get` answers after a history. */
  function Answer(ops: seq<Op>, key: string, now: int, secret: KeyTest): Reply {
    Do(Run(ops, secret), Get(key, now), secret).1
  }

  // --------------------------------------------------------------- the specification

  /** The position of the latest set or delete of the key that took effect. */
  function LatestWrite(ops: seq<Op>, key: string, secret: KeyTest): (i: Option<nat>)
    ensures i.Some? ==> i.value < |ops| && ops[i.value].key == key && (ops[i.value].Set? || ops[i.value].Delete?)
  {
    if ops == [] then None
    else
      var n := |ops| - 1;
      var op := ops[n];
      if op.key == key && (op.Delete? || (op.Set? && forall k | k in op.payload :: !secret(k))) then Some(n)
      else LatestWrite(ops[..n], key, secret)
  }

  /**
   The documented answer: the payload of the latest set not deleted since, while it has no TTL or `now`
   is before its end.
   */
  function Documented(ops: seq<Op>, key: string, now: int, secret: KeyTest): Reply {
    var i := LatestWrite(ops, key, secret);
    if i.None? || ops[i.value].Delete? then Miss
    else
      var written := ops[i.value];
      if written.ttl.None? || now < written.now + written.ttl.value then Hit(written.payload) else Miss
  }

  /**
   A `get` of the key after position `i` read the clock at or past the end of the entry set there, and so
   deleted it.
   */
  ghost predicate SeenExpired(ops: seq<Op>, i: nat)
    requires i < |ops| && ops[i].Set?
  {
    exists j | i < j < |ops| ::
      ops[j].Get? && ops[j].key == ops[i].key && ops[i].ttl.Some? && ops[j].now >= ops[i].now + ops[i].ttl.value
  }

  /**
   The row of a key is the latest set, unless that was deleted or a `get` has seen it expired; the clock
   may do anything.
   */
  lemma {:induction false} RowIsLatestWrite(ops: seq<Op>, key: string, secret: KeyTest)
    ensures var i, rows := LatestWrite(ops, key, secret), Run(ops, secret);
      && (key in rows <==> i.Some? && ops[i.value].Set? && !SeenExpired(ops, i.value))
      && (key in rows ==>
            && rows[key].payload == ops[i.value].payload
            && (rows[key].expires.Some? <==> ops[i.value].ttl.Some?)
            && (ops[i.value].ttl.Some? ==> rows[key].expires.value == ops[i.value].now + ops[i.value].ttl.value))
  {
    if ops != [] {
      var n := |ops| - 1;
      RowIsLatestWrite(ops[..n], key, secret);
      var i := LatestWrite(ops[..n], key, secret);
      if LatestWrite(ops, key, secret) == i && i.Some? && ops[i.value].Set? {
        SeenExpiredSnoc(ops, i.value);
      }
    }
  }

  lemma SeenExpiredSnoc(ops: seq<Op>, i: nat)
    requires i < |ops| - 1 && ops[i].Set?
    ensures var n := |ops| - 1;
      SeenExpired(ops, i) <==> SeenExpired(ops[..n], i)
                               || (ops[n].Get? && ops[n].key == ops[i].key && ops[i].ttl.Some?
                                   && ops[n].now >= ops[i].now + ops[i].ttl.value)
  {
    var n := |ops| - 1;
    if SeenExpired(ops[..n], i) {
      var j :| i < j < n && ops[..n][j].Get? && ops[..n][j].key == ops[i].key
               && ops[i].ttl.Some? && ops[..n][j].now >= ops[i].now + ops[i].ttl.value;
      assert ops[j] == ops[..n][j];
    }
    if SeenExpired(ops, i) {
      var j :| i < j < |ops| && ops[j].Get? && ops[j].key == ops[i].key
               && ops[i].ttl.Some? && ops[j].now >= ops[i].now + ops[i].ttl.value;
      assert j < n ==> ops[..n][j] == ops[j];
    }
  }

  /**
   Under any clock, the answer is the documented one exactly when no live entry was deleted by a `get`
   that read a later time.
   */
  lemma DocumentedIff(ops: seq<Op>, key: string, now: int, secret: KeyTest)
    ensures Answer(ops, key, now, secret) == Documented(ops, key, now, secret) <==>
              Documented(ops, key, now, secret).Hit? ==> !SeenExpired(ops, LatestWrite(ops, key, secret).value)
  {
    RowIsLatestWrite(ops, key, secret);
  }

  /** The clock never goes back over the history, nor before `now`. */
  ghost predicate Forward(ops: seq<Op>, now: int) {
    && (forall i, j | 0 <= i < j < |ops| && !ops[i].Delete? && !ops[j].Delete? :: ops[i].now <= ops[j].now)
    && (forall i | 0 <= i < |ops| && !ops[i].Delete? :: ops[i].now <= now)
  }

  /**
   With a clock that never goes back every answer is the documented one: a hit exactly when the
   latest write is a set without TTL, or one whose TTL has not passed, and then with its payload.
   */
  lemma AnswersAsDocumented(ops: seq<Op>, key: string, now: int, secret: KeyTest)
    requires Forward(ops, now)
    ensures Answer(ops, key, now, secret) == Documented(ops, key, now, secret)
    ensures var i, reply := LatestWrite(ops, key, secret), Answer(ops, key, now, secret);
      && (reply.Hit? || reply == Miss)
      && (reply.Hit? <==>
            && i.Some? && ops[i.value].Set?
            && (ops[i.value].ttl.None? || now < ops[i.value].now + ops[i.value].ttl.value))
      && (reply.Hit? ==> reply.payload == ops[i.value].payload)
  {
    DocumentedIff(ops, key, now, secret);
  }

  function WithoutGets(ops: seq<Op>): seq<Op> {
    if ops == [] then []
    else
      var n := |ops| - 1;
      WithoutGets(ops[..n]) + (if ops[n].Get? then [] else [ops[n]])
  }

  /** The deletions done by `get` cannot be observed: without the gets of a history every later answer is the same. */
  lemma PurgeUnobservable(ops: seq<Op>, key: string, now: int, secret: KeyTest)
    requires Forward(ops, now)
    ensures Answer(ops, key, now, secret) == Answer(WithoutGets(ops), key, now, secret)
  {
    AnswersAsDocumented(ops, key, now, secret);
    WithoutGetsWrites(ops, key, secret);
    NoGetsLeft(ops);
    DocumentedIff(WithoutGets(ops), key, now, secret);
  }

  lemma {:induction false} NoGetsLeft(ops: seq<Op>)
    ensures forall op | op in WithoutGets(ops) :: !op.Get?
  {
    if ops != [] {
      NoGetsLeft(ops[..|ops| - 1]);
    }
  }

  lemma {:induction false} WithoutGetsWrites(ops: seq<Op>, key: string, secret: KeyTest)
    ensures var i, j := LatestWrite(ops, key, secret), LatestWrite(WithoutGets(ops), key, secret);
      && (i.Some? <==> j.Some?)
      && (i.Some? ==> ops[i.value] == WithoutGets(ops)[j.value])
  {
    if ops != [] {
      var n := |ops| - 1;
      WithoutGetsWrites(ops[..n], key, secret);
      var rest := WithoutGets(ops[..n]);
      if !ops[n].Get? {
        assert (rest + [ops[n]])[..|rest|] == rest;
      } else {
        assert rest + [] == rest;
      }
    }
  }

  /** A clock that steps back after a purge loses an entry that is live again. */
  lemma SteppingBackLosesAnEntry(key: string, secret: KeyTest)
    ensures var ops := [Set(key, map[], Some(5), 0), Get(key, 10)];
      Answer(ops, key, 3, secret) == Miss && Documented(ops, key, 3, secret) == Hit(map[])
  {
    var ops := [Set(key, map[], Some(5), 0), Get(key, 10)];
    assert ops[..1] == [Set(key, map[], Some(5), 0)];
    assert ops[1] == Get(key, 10) && ops[0] == Set(key, map[], Some(5), 0);
    assert SeenExpired(ops, 0);
    DocumentedIff(ops, key, 3, secret);
    RowIsLatestWrite(ops, key, secret);
  }

  /** A set is refused exactly if its payload has a credential key; then it changes nothing. */
  lemma RefusedIff(rows: map<string, Entry>, key: string, payload: Payload, ttl: Option<int>, now: int, secret: KeyTest)
    ensures var (after, reply) := Do(rows, Set(key, payload, ttl, now), secret);
      && (reply == SecretRefused <==> exists k :: k in payload && secret(k))
      && (reply == SecretRefused ==> after == rows)
      && (reply != SecretRefused ==> reply == Done)
  {
  }

  /** No payload with a credential key is ever stored or answered. */
  lemma {:induction false} NoSecretStored(ops: seq<Op>, key: string, secret: KeyTest)
    requires key in Run(ops, secret)
    ensures forall k | k in Run(ops, secret)[key].payload :: !secret(k)
  {
    if ops != [] {
      var n := |ops| - 1;
      if key in Run(ops[..n], secret) {
        NoSecretStored(ops[..n], key, secret);
      }
    }
  }
}
