/**
 * The per-environment diagnostics cache: a process-wide map from an
 * environment URL to an entry holding the resolved payload, the stored
 * failure and the in-flight fetch. A read returns the payload, raises the
 * failure, or suspends on the (single) in-flight fetch, starting it if need
 * be; the fetch's settle callbacks fill the entry in; `clearCache` wipes the
 * map.
 *
 * The pure functions on `Store` say what each step does; the class
 * `DiagnosticsCache` performs the steps in place and is proved to follow them.
 * A promise is identified by the index of its `fetch` call in `fetches`, the
 * log of the URLs passed to `fetch`.
 */
module UseDiagnostics {

  import opened Wrappers
  import opened DiagnosticsTypes

  /**
   * What `response.json()` resolves to: a payload object, or a JSON literal
   * that JavaScript treats as false (`null`, `false`, `0`, `""`).
   */
  datatype Json = Payload(diagnostics: Diagnostics) | FalsyLiteral

  /** The parts of a `fetch` response the fetcher looks at; `body` is what `json()` settles to. */
  datatype Response = Response(ok: bool, statusText: string, body: Result<Json, Error>)

  /** What happens to one `fetch(environment)` call. */
  datatype Transport = Responded(response: Response) | NetworkFailure(error: Error)

  const FailurePrefix := "Failed to fetch diagnostics: "

  /** `fetchDiagnosticsData`: what the promise it returns settles to. */
  function FetchDiagnosticsData(transport: Transport): (r: Result<Json, Error>)
    ensures transport.NetworkFailure? ==> r == Failure(transport.error)
    ensures transport.Responded? && transport.response.ok ==> r == transport.response.body
    ensures transport.Responded? && !transport.response.ok ==>
      && r.Failure?
      && |FailurePrefix| <= |r.error.message|
      && r.error.message[..|FailurePrefix|] == FailurePrefix
      && r.error.message[|FailurePrefix|..] == transport.response.statusText
  {
    match transport
    case NetworkFailure(e) => Failure(e)
    case Responded(response) =>
      if !response.ok then Failure(Error(FailurePrefix + response.statusText))
      else response.body
  }

  /** `CacheEntry`; `promise` is the index of the pending fetch in the fetch log. */
  datatype Entry = Entry(data: Option<Json>, error: Option<Error>, promise: Option<nat>)

  const EmptyEntry := Entry(None, None, None)

  /** `entry.data` is truthy. */
  predicate HasData(e: Entry)
  {
    e.data.Some? && e.data.value.Payload?
  }

  /** The cache map together with the log of every `fetch` issued so far. */
  datatype Store = Store(entries: map<string, Entry>, fetches: seq<string>)

  /** What `useDiagnostics` does: return the payload, throw the error, or throw the pending promise. */
  datatype ReadResult = Value(diagnostics: Diagnostics) | Raise(error: Error) | Suspend(started: bool, promise: nat)

  datatype ReadOutcome = ReadOutcome(store: Store, result: ReadResult)

  /**
   * A pending promise is a fetch of its own key that has been issued, and an
   * entry with a pending promise holds neither an error nor data.
   */
  ghost predicate Consistent(s: Store)
  {
    forall k :: k in s.entries && s.entries[k].promise.Some? ==>
      && s.entries[k].promise.value < |s.fetches|
      && s.fetches[s.entries[k].promise.value] == k
      && s.entries[k].error.None?
      && !HasData(s.entries[k])
  }

  /** The entry a read of `key` works on: the stored one, or a fresh empty one. */
  function EntryFor(s: Store, key: string): Entry
  {
    if key in s.entries then s.entries[key] else EmptyEntry
  }

  /** Neither failed, resolved nor pending: the next read of `key` starts a fetch. */
  ghost predicate Idle(s: Store, key: string)
  {
    var e := EntryFor(s, key);
    e.error.None? && !HasData(e) && e.promise.None?
  }

  /** One call of `useDiagnostics(key)`. */
  function ReadStore(s: Store, key: string): (o: ReadOutcome)
    ensures key in o.store.entries
    ensures forall k :: k != key ==> (k in o.store.entries <==> k in s.entries)
    ensures forall k :: k != key && k in s.entries ==> o.store.entries[k] == s.entries[k]
    ensures o.store.fetches == (if Idle(s, key) then s.fetches + [key] else s.fetches)
    ensures o.result.Raise? <==> EntryFor(s, key).error.Some?
    ensures o.result.Value? <==> EntryFor(s, key).error.None? && HasData(EntryFor(s, key))
    ensures o.result.Suspend? ==>
      (o.result.started == Idle(s, key) && o.store.entries[key].promise == Some(o.result.promise))
    ensures Consistent(s) ==> Consistent(o.store)
  {
    var e := EntryFor(s, key);
    if e.error.Some? then
      ReadOutcome(Store(s.entries[key := e], s.fetches), Raise(e.error.value))
    else if HasData(e) then
      ReadOutcome(Store(s.entries[key := e], s.fetches), Value(e.data.value.diagnostics))
    else if e.promise.Some? then
      ReadOutcome(Store(s.entries[key := e], s.fetches), Suspend(false, e.promise.value))
    else
      var id := |s.fetches|;
      ReadOutcome(Store(s.entries[key := e.(promise := Some(id))], s.fetches + [key]), Suspend(true, id))
  }

  /**
   * The `.then` / `.catch` callbacks of fetch `id`, started for `key`. They
   * write into the entry they captured; once `clearCache` has dropped that
   * entry (or it has already settled) nothing visible changes.
   */
  function SettleStore(s: Store, key: string, id: nat, transport: Transport): (t: Store)
    ensures t.fetches == s.fetches
    ensures t.entries.Keys == s.entries.Keys
    ensures forall k :: k != key && k in s.entries ==> t.entries[k] == s.entries[k]
    ensures key in s.entries && s.entries[key].promise == Some(id) ==>
      t.entries[key].promise.None? && (t.entries[key].error.Some? || HasData(t.entries[key])
        || FetchDiagnosticsData(transport) == Success(FalsyLiteral))
    ensures key in s.entries && s.entries[key].promise == Some(id) ==>
      match FetchDiagnosticsData(transport)
      case Success(j) => t.entries[key].data == Some(j) && t.entries[key].error == s.entries[key].error
      case Failure(e) => t.entries[key].error == Some(e) && t.entries[key].data == s.entries[key].data
    ensures !(key in s.entries && s.entries[key].promise == Some(id)) ==> t == s
    ensures Consistent(s) ==> Consistent(t)
  {
    if key in s.entries && s.entries[key].promise == Some(id) then
      var e := s.entries[key];
      var e' := match FetchDiagnosticsData(transport)
        case Success(data) => e.(data := Some(data), promise := None)
        case Failure(error) => e.(error := Some(error), promise := None);
      Store(s.entries[key := e'], s.fetches)
    else s
  }

  /** `clearCache()`: every entry is dropped; fetches already issued stay issued. */
  function ClearStore(s: Store): (t: Store)
    ensures t.entries == map[] && t.fetches == s.fetches
    ensures forall key :: Idle(t, key)
  {
    Store(map[], s.fetches)
  }

  datatype ReadsOutcome = ReadsOutcome(store: Store, results: seq<ReadResult>)

  /** Reads of `keys`, one after another, with no fetch settling in between. */
  function ReadAll(s: Store, keys: seq<string>): (o: ReadsOutcome)
    ensures |o.results| == |keys|
    decreases |keys|
  {
    if |keys| == 0 then ReadsOutcome(s, [])
    else
      var first := ReadStore(s, keys[0]);
      var rest := ReadAll(first.store, keys[1..]);
      ReadsOutcome(rest.store, [first.result] + rest.results)
  }

  /** What a read returns when repeated right after `r`: the same, except it starts no fetch. */
  function Again(r: ReadResult): ReadResult
  {
    if r.Suspend? then r.(started := false) else r
  }

  /**
   * The first read of a key creates its entry and, the entry being empty,
   * starts its fetch at once; no other key's entry changes.
   */
  lemma ReadOfNewKey(s: Store, key: string)
    requires key !in s.entries
    ensures var o := ReadStore(s, key);
      && o.result == Suspend(true, |s.fetches|)
      && o.store.entries == s.entries[key := Entry(None, None, Some(|s.fetches|))]
      && o.store.fetches == s.fetches + [key]
  {
  }

  /** A second read of the same key changes nothing and returns what the first did. */
  lemma ReadAgain(s: Store, key: string)
    ensures ReadStore(ReadStore(s, key).store, key)
      == ReadOutcome(ReadStore(s, key).store, Again(ReadStore(s, key).result))
  {
  }

  /** Reads that all name `key`. */
  ghost predicate AllOf(keys: seq<string>, key: string)
  {
    forall i :: 0 <= i < |keys| ==> keys[i] == key
  }

  /** Any number of reads of one key behave as the first read, then as repeats of it. */
  lemma {:induction false} RepeatedReads(s: Store, key: string, keys: seq<string>)
    requires |keys| >= 1 && AllOf(keys, key)
    ensures ReadAll(s, keys).store == ReadStore(s, key).store
    ensures ReadAll(s, keys).results[0] == ReadStore(s, key).result
    ensures forall i :: 1 <= i < |keys| ==> ReadAll(s, keys).results[i] == Again(ReadStore(s, key).result)
    decreases |keys|
  {
    var first := ReadStore(s, key);
    if |keys| > 1 {
      var tail := keys[1..];
      RepeatedReads(first.store, key, tail);
      ReadAgain(s, key);
      var rest := ReadAll(first.store, tail);
      assert ReadAll(s, keys).results == [first.result] + rest.results;
      forall i | 1 <= i < |keys| ensures ReadAll(s, keys).results[i] == Again(first.result) {
        assert ReadAll(s, keys).results[i] == rest.results[i - 1];
      }
    }
  }

  /** De-duplication: reads of a key that is neither resolved nor failed all suspend on one fetch. */
  lemma {:induction false} ConcurrentReadsFetchOnce(s: Store, key: string, keys: seq<string>)
    requires Consistent(s)
    requires |keys| >= 1 && AllOf(keys, key)
    requires EntryFor(s, key).error.None? && !HasData(EntryFor(s, key))
    ensures var o := ReadAll(s, keys);
      && o.store.fetches == s.fetches + (if EntryFor(s, key).promise.None? then [key] else [])
      && key in o.store.entries && o.store.entries[key].promise.Some?
      && var p := o.store.entries[key].promise.value;
      && p < |o.store.fetches| && o.store.fetches[p] == key
      && forall i :: 0 <= i < |keys| ==> o.results[i].Suspend? && o.results[i].promise == p
  {
    RepeatedReads(s, key, keys);
  }

  /** Sticky failure: a failed key raises its stored error on every read and fetches nothing. */
  lemma {:induction false} FailedKeyRaisesOnEveryRead(s: Store, key: string, e: Error, keys: seq<string>)
    requires EntryFor(s, key).error == Some(e)
    requires |keys| >= 1 && AllOf(keys, key)
    ensures var o := ReadAll(s, keys);
      o.store.fetches == s.fetches && forall i :: 0 <= i < |keys| ==> o.results[i] == Raise(e)
  {
    RepeatedReads(s, key, keys);
  }

  /** Cache hit: a resolved key returns its data on every read and fetches nothing. */
  lemma {:induction false} ResolvedKeyReturnsOnEveryRead(s: Store, key: string, d: Diagnostics, keys: seq<string>)
    requires EntryFor(s, key).error.None? && EntryFor(s, key).data == Some(Payload(d))
    requires |keys| >= 1 && AllOf(keys, key)
    ensures var o := ReadAll(s, keys);
      o.store.fetches == s.fetches && forall i :: 0 <= i < |keys| ==> o.results[i] == Value(d)
  {
    RepeatedReads(s, key, keys);
  }

  /** Settling any fetch leaves a failed or resolved key as it was. */
  lemma SettleKeepsSettledEntries(s: Store, key: string, k: string, id: nat, transport: Transport)
    requires Consistent(s)
    requires k in s.entries && (s.entries[k].error.Some? || HasData(s.entries[k]))
    ensures SettleStore(s, key, id, transport).entries[k] == s.entries[k]
  {
  }

  /** One read fetches exactly when its key is idle, and leaves only that key no longer idle. */
  lemma ReadIdleStep(s: Store, key: string)
    ensures ReadStore(s, key).store.fetches == s.fetches + (if Idle(s, key) then [key] else [])
    ensures !Idle(ReadStore(s, key).store, key)
    ensures forall k :: k != key ==> (Idle(ReadStore(s, key).store, k) <==> Idle(s, k))
  {
  }

  /** The fetches a sequence of reads adds are for exactly the keys read while idle. */
  lemma {:induction false} ReadsFetchIdleKeys(s: Store, keys: seq<string>)
    ensures var f := ReadAll(s, keys).store.fetches;
      && |s.fetches| <= |f| && f[..|s.fetches|] == s.fetches
      && (forall k :: k in f[|s.fetches|..] <==> k in keys && Idle(s, k))
    decreases |keys|
  {
    if |keys| > 0 {
      var k0 := keys[0];
      var s1 := ReadStore(s, k0).store;
      ReadIdleStep(s, k0);
      ReadsFetchIdleKeys(s1, keys[1..]);
      var f := ReadAll(s, keys).store.fetches;
      assert f == ReadAll(s1, keys[1..]).store.fetches;
      var n, n1 := |s.fetches|, |s1.fetches|;
      var first: seq<string> := if Idle(s, k0) then [k0] else [];
      assert s1.fetches == s.fetches + first;
      assert f[n..] == first + f[n1..];
      forall k ensures k in f[n..] <==> k in keys && Idle(s, k) {
        assert k in keys <==> k == k0 || k in keys[1..];
        assert k in f[n..] <==> k in first || k in f[n1..];
      }
    }
  }

  /**
   * Per-key isolation and de-duplication together: over any sequence of
   * reads, the fetches issued are exactly one for each distinct key that was
   * idle beforehand.
   */
  lemma {:induction false} ReadsFetchEachIdleKeyOnce(s: Store, keys: seq<string>)
    ensures var f := ReadAll(s, keys).store.fetches;
      && |s.fetches| <= |f| && f[..|s.fetches|] == s.fetches
      && (forall k :: k in f[|s.fetches|..] <==> k in keys && Idle(s, k))
      && (forall i, j :: |s.fetches| <= i < j < |f| ==> f[i] != f[j])
    decreases |keys|
  {
    ReadsFetchIdleKeys(s, keys);
    if |keys| > 0 {
      var k0 := keys[0];
      var s1 := ReadStore(s, k0).store;
      ReadIdleStep(s, k0);
      ReadsFetchIdleKeys(s1, keys[1..]);
      ReadsFetchEachIdleKeyOnce(s1, keys[1..]);
      var f := ReadAll(s, keys).store.fetches;
      assert f == ReadAll(s1, keys[1..]).store.fetches;
      var n, n1 := |s.fetches|, |s1.fetches|;
      forall i, j | n <= i < j < |f| ensures f[i] != f[j] {
        if i < n1 {
          assert f[i] == k0;
          assert f[j] in f[n1..];
        }
      }
    }
  }

  /** After `clearCache`, the next read of any key starts a new fetch, whatever the key held before. */
  lemma ClearThenReadFetches(s: Store, key: string)
    ensures ReadStore(ClearStore(s), key).result == Suspend(true, |s.fetches|)
    ensures ReadStore(ClearStore(s), key).store.fetches == s.fetches + [key]
  {
  }

  /** Every pending promise in `s` was issued at or after fetch number `n`. */
  ghost predicate PendingFrom(s: Store, n: nat)
  {
    forall k :: k in s.entries && s.entries[k].promise.Some? ==> n <= s.entries[k].promise.value
  }

  lemma {:induction false} ReadAllKeepsPendingFrom(s: Store, keys: seq<string>, n: nat)
    requires PendingFrom(s, n) && n <= |s.fetches|
    ensures PendingFrom(ReadAll(s, keys).store, n)
    decreases |keys|
  {
    if |keys| > 0 {
      ReadAllKeepsPendingFrom(ReadStore(s, keys[0]).store, keys[1..], n);
    }
  }

  /**
   * A fetch issued before `clearCache` that settles afterwards, whatever was
   * read in between, changes nothing the cache can show.
   */
  lemma {:induction false} StaleSettleIgnored(s: Store, keys: seq<string>, key: string, id: nat, transport: Transport)
    requires id < |s.fetches|
    ensures var t := ReadAll(ClearStore(s), keys).store;
      SettleStore(t, key, id, transport) == t
  {
    ReadAllKeepsPendingFrom(ClearStore(s), keys, |s.fetches|);
  }

  /**
   * What the read after a settle sees: the fetched payload, the fetched
   * error, or, for a falsy body, a new fetch of its own.
   */
  lemma SettleThenRead(s: Store, key: string, id: nat, transport: Transport)
    requires Consistent(s)
    requires key in s.entries && s.entries[key].promise == Some(id)
    ensures var r := ReadStore(SettleStore(s, key, id, transport), key).result;
      match FetchDiagnosticsData(transport)
      case Success(Payload(d)) => r == Value(d)
      case Success(FalsyLiteral) => r == Suspend(true, |s.fetches|)
      case Failure(e) => r == Raise(e)
  {
  }

  /** A body that parses to a falsy literal is stored but not used: the next read fetches again. */
  lemma FalsyBodyFetchesAgain(s: Store, key: string, response: Response)
    requires key !in s.entries
    requires response.ok && response.body == Success(FalsyLiteral)
    ensures var r1 := ReadStore(s, key);
      var s2 := SettleStore(r1.store, key, r1.result.promise, Responded(response));
      ReadStore(s2, key).result == Suspend(true, |s.fetches| + 1)
  {
  }

  /** A successful fetch: the first read suspends, the read after settling returns the payload. */
  lemma SuccessfulFetchScenario(key: string, d: Diagnostics, statusText: string)
    ensures var r1 := ReadStore(Store(map[], []), key);
      var s2 := SettleStore(r1.store, key, 0, Responded(Response(true, statusText, Success(Payload(d)))));
      && r1.result == Suspend(true, 0)
      && ReadStore(s2, key).result == Value(d)
      && ReadStore(s2, key).store.fetches == [key]
  {
  }

  /** A non-ok response: the read after settling raises the templated message. */
  lemma FailedFetchScenario(key: string, body: Result<Json, Error>)
    ensures var r1 := ReadStore(Store(map[], []), key);
      var s2 := SettleStore(r1.store, key, 0, Responded(Response(false, "Network error", body)));
      ReadStore(s2, key).result == Raise(Error("Failed to fetch diagnostics: Network error"))
  {
    assert FailurePrefix + "Network error" == "Failed to fetch diagnostics: Network error";
  }

  /** A body that fails to parse: the parser's own error is raised unchanged. */
  lemma ParseFailureScenario(key: string, statusText: string)
    ensures var r1 := ReadStore(Store(map[], []), key);
      var s2 := SettleStore(r1.store, key, 0, Responded(Response(true, statusText, Failure(Error("Invalid JSON")))));
      ReadStore(s2, key).result == Raise(Error("Invalid JSON"))
  {
  }

  /** The module-level `cache` map of `useDiagnostics.ts`, with the log of fetches it issued. */
  class DiagnosticsCache {
    var entries: map<string, Entry>
    var fetches: seq<string>

    function State(): Store
      reads this
    {
      Store(entries, fetches)
    }

    ghost predicate Valid()
      reads this
    {
      Consistent(State())
    }

    constructor ()
      ensures Valid() && entries == map[] && fetches == []
    {
      entries := map[];
      fetches := [];
    }

    /** `useDiagnostics(key)`. */
    method Read(key: string) returns (r: ReadResult)
      requires Valid()
      modifies this
      ensures Valid()
      ensures ReadOutcome(State(), r) == ReadStore(old(State()), key)
    {
      if key !in entries {
        entries := entries[key := EmptyEntry];
      }
      var entry := entries[key];
      if entry.error.Some? {
        return Raise(entry.error.value);
      }
      if !HasData(entry) {
        if entry.promise.None? {
          var id := |fetches|;
          fetches := fetches + [key];
          entries := entries[key := entry.(promise := Some(id))];
          return Suspend(true, id);
        }
        return Suspend(false, entry.promise.value);
      }
      return Value(entry.data.value.diagnostics);
    }

    /** The settle callbacks of fetch `id`, which was started for `key`. */
    method Settle(key: string, id: nat, transport: Transport)
      requires Valid()
      modifies this
      ensures Valid()
      ensures State() == SettleStore(old(State()), key, id, transport)
    {
      if key in entries && entries[key].promise == Some(id) {
        var entry := entries[key];
        var outcome := FetchDiagnosticsData(transport);
        if outcome.Success? {
          entry := entry.(data := Some(outcome.value));
        } else {
          entry := entry.(error := Some(outcome.error));
        }
        entries := entries[key := entry.(promise := None)];
      }
    }

    /** `clearCache()`. */
    method Clear()
      requires Valid()
      modifies this
      ensures Valid()
      ensures State() == ClearStore(old(State()))
    {
      entries := map[];
    }
  }
}
