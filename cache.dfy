/** The shared key-value cache (a Redis client) as the model materializers use it:
    string keys and values, reads through a callback that can report an error,
    and writes with an expiry in seconds ('EX'). Expiry itself is not modelled. */
module Cache {

  /** What `cache.get(key, callback)` hands the callback, as the callers branch on it:
      an error, a falsy result (no entry, or the empty string), or a value. */
  datatype Read = ReadError | Miss | Hit(value: string)

  /** The cache contents and the expiry given with the last write of each key. */
  datatype State = State(entries: map<string, string>, ttl: map<string, nat>)

  /** The expiry the materializers pass on every write; its value is defined in
      constants/models, which is not part of this model. */
  const DefaultCacheTimeout: nat

  /** The read a caller observes for `key`; `up` is whether the cache server answers. */
  function Lookup(s: State, up: bool, key: string): (r: Read)
    ensures r == ReadError <==> !up
    ensures r.Hit? <==> up && key in s.entries && s.entries[key] != ""
    ensures r.Hit? ==> r.value == s.entries[key]
  {
    if !up then ReadError
    else if key in s.entries && s.entries[key] != "" then Hit(s.entries[key])
    else Miss
  }

  /** `cache.set(key, value, 'EX', seconds)`. */
  function Write(s: State, key: string, value: string, seconds: nat): (r: State)
    ensures r.entries.Keys == s.entries.Keys + {key} && r.entries[key] == value
    ensures forall k :: k in s.entries && k != key ==> r.entries[k] == s.entries[k]
    ensures r.ttl == s.ttl[key := seconds]
  {
    State(s.entries[key := value], s.ttl[key := seconds])
  }

  lemma WriteThenRead(s: State, key: string, value: string, seconds: nat)
    requires value != ""
    ensures Lookup(Write(s, key, value, seconds), true, key) == Hit(value)
  {
  }

  class Cache {
    var entries: map<string, string>
    var ttl: map<string, nat>
    /** Whether the cache server answers reads. */
    var up: bool

    function Snapshot(): State
      reads this
    {
      State(entries, ttl)
    }

    constructor (up: bool)
      ensures Snapshot() == State(map[], map[]) && this.up == up
    {
      entries, ttl := map[], map[];
      this.up := up;
    }

    method Get(key: string) returns (r: Read)
      ensures r == ReadError <==> !up
      ensures r.Hit? <==> up && key in entries && entries[key] != ""
      ensures r.Hit? ==> r.value == entries[key]
      ensures r == Lookup(Snapshot(), up, key)
    {
      if !up {
        r := ReadError;
      } else if key in entries && entries[key] != "" {
        r := Hit(entries[key]);
      } else {
        r := Miss;
      }
    }

    method Set(key: string, value: string, seconds: nat)
      modifies this`entries, this`ttl
      ensures Snapshot() == Write(old(Snapshot()), key, value, seconds)
    {
      entries := entries[key := value];
      ttl := ttl[key := seconds];
    }
  }
}
