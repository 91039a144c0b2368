/** The record store (src/jobs.py:32-55): one Redis hash per job, with an expiry that
    is set once. A hash whose time has come is gone, and a write to a hash that is
    gone makes a new one without an expiry. */
module Jobs {
  import opened Common

  type Fields = map<string, string>

  datatype Entry = Entry(fields: Fields, expiresAt: Option<int>)

  type Entries = map<string, Entry>

  function Key(jobId: string): string {
    "job:" + jobId
  }

  lemma KeysDiffer(a: string, b: string)
    requires Key(a) == Key(b)
    ensures a == b
  {
    assert a == Key(a)[4..] && b == Key(b)[4..];
  }

  predicate Gone(e: Entry, now: int) {
    match e.expiresAt case Some(t) => t <= now case None => false
  }

  /** What a read at this time finds. */
  function Found(entries: Entries, key: string, now: int): Option<Entry> {
    if key in entries && !Gone(entries[key], now) then Some(entries[key]) else None
  }

  /** HSET: merge into what is there; the expiry of a live hash stays. */
  function Written(entries: Entries, key: string, fields: Fields, now: int): Entries {
    entries[key := match Found(entries, key, now)
                   case Some(e) => Entry(e.fields + fields, e.expiresAt)
                   case None => Entry(fields, None)]
  }

  /** EXPIRE. */
  function Expiring(entries: Entries, key: string, now: int, ttl: int): Entries {
    match Found(entries, key, now)
    case Some(e) => entries[key := e.(expiresAt := Some(now + ttl))]
    case None => entries
  }

  /** The values `create` adds where the caller gave none. */
  function WithDefaults(fields: Fields, now: string): Fields {
    map["status" := "queued", "created_at" := now] + fields
  }

  function Created(entries: Entries, jobId: string, fields: Fields, now: int, stamp: string, ttl: int): Entries {
    Expiring(Written(entries, Key(jobId), WithDefaults(fields, stamp), now), Key(jobId), now, ttl)
  }

  /** What `get` answers: None as well for a hash without fields. */
  function Seen(entries: Entries, jobId: string, now: int): Option<Fields> {
    match Found(entries, Key(jobId), now)
    case Some(e) => if e.fields == map[] then None else Some(e.fields)
    case None => None
  }

  class Store {
    var entries: Entries
    const jobTtl: int

    constructor (ttl: int)
      ensures entries == map[] && jobTtl == ttl
    {
      entries := map[];
      jobTtl := ttl;
    }

    // Redis refuses an empty mapping.
    method Write(jobId: string, fields: Fields, now: int)
      requires fields != map[]
      modifies this
      ensures entries == Written(old(entries), Key(jobId), fields, now)
    {
      var key := Key(jobId);
      if key in entries && !Gone(entries[key], now) {
        entries := entries[key := Entry(entries[key].fields + fields, entries[key].expiresAt)];
      } else {
        entries := entries[key := Entry(fields, None)];
      }
    }

    method Create(jobId: string, fields: Fields, now: int, stamp: string)
      modifies this
      ensures entries == Created(old(entries), jobId, fields, now, stamp, jobTtl)
    {
      var all := fields;
      if "status" !in all { all := all["status" := "queued"]; }
      if "created_at" !in all { all := all["created_at" := stamp]; }
      assert all == WithDefaults(fields, stamp);
      assert "status" in all;
      Write(jobId, all, now);
      entries := Expiring(entries, Key(jobId), now, jobTtl);
    }

    method Update(jobId: string, fields: Fields, now: int)
      requires fields != map[]
      modifies this
      ensures entries == Written(old(entries), Key(jobId), fields, now)
    {
      Write(jobId, fields, now);
    }

    method Get(jobId: string, now: int) returns (data: Option<Fields>)
      ensures data == Seen(entries, jobId, now)
    {
      var key := Key(jobId);
      if key in entries && !Gone(entries[key], now) && entries[key].fields != map[] {
        data := Some(entries[key].fields);
      } else {
        data := None;
      }
    }
  }

  // ------------------------------------------------------ the life of a record

  datatype Op = Op(now: int, fields: Fields)

  /** Updates of one record, one after the other. */
  function Applied(entries: Entries, jobId: string, ops: seq<Op>): Entries
    decreases |ops|
  {
    if ops == [] then entries
    else Applied(Written(entries, Key(jobId), ops[0].fields, ops[0].now), jobId, ops[1..])
  }

  /** The first update at or after t; the number of updates if there is none. */
  function FirstLate(ops: seq<Op>, t: int): (n: nat)
    ensures n <= |ops|
    ensures forall i :: 0 <= i < n ==> ops[i].now < t
    ensures n < |ops| ==> t <= ops[n].now
  {
    if ops == [] || t <= ops[0].now then 0 else 1 + FirstLate(ops[1..], t)
  }

  /** All the fields the updates wrote over these. */
  function Merged(base: Fields, ops: seq<Op>): Fields
    decreases |ops|
  {
    if ops == [] then base else Merged(base + ops[0].fields, ops[1..])
  }

  /** A field says what the last update that named it said. */
  lemma {:induction false} LastWriteWins(base: Fields, ops: seq<Op>, field: string, k: nat)
    requires k < |ops| && field in ops[k].fields
    requires forall i :: k < i < |ops| ==> field !in ops[i].fields
    ensures field in Merged(base, ops) && Merged(base, ops)[field] == ops[k].fields[field]
    decreases |ops|
  {
    if k == 0 {
      UnwrittenStays(base + ops[0].fields, ops[1..], field);
    } else {
      LastWriteWins(base + ops[0].fields, ops[1..], field, k - 1);
    }
  }

  lemma {:induction false} UnwrittenStays(base: Fields, ops: seq<Op>, field: string)
    requires forall i :: 0 <= i < |ops| ==> field !in ops[i].fields
    ensures field in Merged(base, ops) <==> field in base
    ensures field in base ==> Merged(base, ops)[field] == base[field]
    decreases |ops|
  {
    if ops != [] { UnwrittenStays(base + ops[0].fields, ops[1..], field); }
  }

  /** A hash without expiry keeps being one. */
  lemma {:induction false} ForeverStays(entries: Entries, jobId: string, ops: seq<Op>)
    requires Key(jobId) in entries && entries[Key(jobId)].expiresAt.None?
    ensures Key(jobId) in Applied(entries, jobId, ops)
    ensures Applied(entries, jobId, ops)[Key(jobId)] == Entry(Merged(entries[Key(jobId)].fields, ops), None)
    decreases |ops|
  {
    if ops != [] { ForeverStays(Written(entries, Key(jobId), ops[0].fields, ops[0].now), jobId, ops[1..]); }
  }

  /** What a record is after any updates: they merge into it up to its expiry, and
      the first one after that starts it afresh, without an expiry and without any of
      its former fields. */
  lemma {:induction false} UpdatesOfARecord(entries: Entries, jobId: string, ops: seq<Op>)
    requires Key(jobId) in entries && entries[Key(jobId)].expiresAt.Some?
    requires forall i, k :: 0 <= i < k < |ops| ==> ops[i].now <= ops[k].now
    ensures var e, n := entries[Key(jobId)], FirstLate(ops, entries[Key(jobId)].expiresAt.value);
            && Key(jobId) in Applied(entries, jobId, ops)
            && Applied(entries, jobId, ops)[Key(jobId)] ==
               if n == |ops| then Entry(Merged(e.fields, ops), e.expiresAt) else Entry(Merged(map[], ops[n..]), None)
    decreases |ops|
  {
    if ops != [] {
      var e := entries[Key(jobId)];
      var next := Written(entries, Key(jobId), ops[0].fields, ops[0].now);
      if ops[0].now < e.expiresAt.value {
        UpdatesOfARecord(next, jobId, ops[1..]);
        assert ops[1..][FirstLate(ops[1..], e.expiresAt.value)..] == ops[FirstLate(ops, e.expiresAt.value)..];
      } else {
        ForeverStays(next, jobId, ops[1..]);
        assert ops[0..] == ops;
        assert map[] + ops[0].fields == ops[0].fields;
      }
    }
  }

  lemma {:induction false} MergedHasFields(base: Fields, ops: seq<Op>)
    requires base != map[] || (ops != [] && ops[0].fields != map[])
    ensures Merged(base, ops) != map[]
    decreases |ops|
  {
    if ops != [] {
      var more := base + ops[0].fields;
      assert more != map[] by {
        if base != map[] { var f :| f in base; assert f in more; }
        else { var f :| f in ops[0].fields; assert f in more; }
      }
      MergedHasFields(more, ops[1..]);
    }
  }

  lemma CreatedOnce(entries: Entries, jobId: string, fields: Fields, created: int, stamp: string, ttl: int)
    requires Key(jobId) !in entries
    ensures WithDefaults(fields, stamp) != map[]
    ensures var start := Created(entries, jobId, fields, created, stamp, ttl);
            Key(jobId) in start && start[Key(jobId)] == Entry(WithDefaults(fields, stamp), Some(created + ttl))
  {
    assert "status" in WithDefaults(fields, stamp);
  }

  /** A new record holds what the caller gave, as it was given; it is queued, and created
      now, unless the caller says otherwise; it has no other field, and is found until
      its TTL is over. */
  lemma NewRecordTells(entries: Entries, jobId: string, fields: Fields, created: int, stamp: string, ttl: int, now: int)
    requires Key(jobId) !in entries
    ensures var seen := Seen(Created(entries, jobId, fields, created, stamp, ttl), jobId, now);
            && (seen.Some? <==> now < created + ttl)
            && (seen.Some? ==>
                  && seen.value.Keys == fields.Keys + {"status", "created_at"}
                  && (forall f :: f in fields ==> seen.value[f] == fields[f])
                  && ("status" !in fields ==> seen.value["status"] == "queued")
                  && ("created_at" !in fields ==> seen.value["created_at"] == stamp))
  {
    CreatedOnce(entries, jobId, fields, created, stamp, ttl);
  }

  /** The TTL is set once, at submission, and no update moves it: a record is found
      until then and not after, unless some update landed after it; and then it is
      found for ever. */
  lemma RecordLivesIff(entries: Entries, jobId: string, fields: Fields, created: int, stamp: string, ttl: int,
                       ops: seq<Op>, now: int)
    requires Key(jobId) !in entries
    requires forall i, k :: 0 <= i < k < |ops| ==> ops[i].now <= ops[k].now
    requires forall i :: 0 <= i < |ops| ==> created <= ops[i].now <= now && ops[i].fields != map[]
    ensures var after := Applied(Created(entries, jobId, fields, created, stamp, ttl), jobId, ops);
            && (Seen(after, jobId, now).Some? <==>
                  now < created + ttl || exists i :: 0 <= i < |ops| && created + ttl <= ops[i].now)
            && (Seen(after, jobId, now).Some? && created + ttl <= now ==>
                  forall later :: now <= later ==> Seen(after, jobId, later) == Seen(after, jobId, now))
  {
    hide Applied, Merged, FirstLate, Created, WithDefaults;
    var start := Created(entries, jobId, fields, created, stamp, ttl);
    var all := WithDefaults(fields, stamp);
    CreatedOnce(entries, jobId, fields, created, stamp, ttl);
    UpdatesOfARecord(start, jobId, ops);
    var n := FirstLate(ops, created + ttl);
    if n == |ops| {
      MergedHasFields(all, ops);
    } else {
      MergedHasFields(map[], ops[n..]);
    }
  }

  /** Updates of one record leave every other alone. */
  lemma {:induction false} OthersStay(entries: Entries, jobId: string, ops: seq<Op>, other: string, now: int)
    requires other != jobId
    ensures Seen(Applied(entries, jobId, ops), other, now) == Seen(entries, other, now)
    decreases |ops|
  {
    if ops != [] {
      if Key(other) == Key(jobId) { KeysDiffer(other, jobId); }
      OthersStay(Written(entries, Key(jobId), ops[0].fields, ops[0].now), jobId, ops[1..], other, now);
    }
  }
}
