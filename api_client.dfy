/**
 * The API client: the stored bearer token, the request and response
 * interceptors of the shared HTTP client, the header merge of `authFetch`,
 * and the stored prompt overrides (`getCustomPrompts`, `syncSavedPrompts`).
 * The network is replaced by the outcome a call would deliver.
 */
module ApiClient {
  import opened Wrappers
  import opened Strings
  import opened Storage

  const TokenKey: string := "auth_token"
  const UserKey: string := "user"
  const StoragePrefix: string := "customPrompt_"
  const AuthorizationHeader: string := "Authorization"

  // ---------------------------------------------------------------------
  // Token management
  // ---------------------------------------------------------------------

  function GetToken(store: LocalStorage): (r: Option<string>)
    reads store
    ensures r.Some? <==> TokenKey in store.items
    ensures r.Some? ==> r.value == store.items[TokenKey]
  {
    store.Get(TokenKey)
  }

  method SetToken(store: LocalStorage, token: string)
    modifies store
    ensures store.items == old(store.items)[TokenKey := token]
    ensures GetToken(store) == Some(token)
  {
    store.SetItem(TokenKey, token);
  }

  method RemoveToken(store: LocalStorage)
    modifies store
    ensures store.items == old(store.items) - {TokenKey}
    ensures GetToken(store) == None
  {
    store.RemoveItem(TokenKey);
  }

  function Bearer(token: string): string {
    "Bearer " + token
  }

  // ---------------------------------------------------------------------
  // Interceptors of the shared HTTP client
  // ---------------------------------------------------------------------

  /** The part of an outgoing request the request interceptor touches. */
  class RequestConfig {
    var headers: map<string, string>

    constructor (headers: map<string, string>)
      ensures this.headers == headers
    {
      this.headers := headers;
    }
  }

  /** The request interceptor: a stored, non-empty token becomes the `Authorization` header. */
  method AttachToken(store: LocalStorage, config: RequestConfig)
    modifies config
    ensures Truthy(GetToken(store)) ==>
      config.headers == old(config.headers)[AuthorizationHeader := Bearer(GetToken(store).value)]
    ensures !Truthy(GetToken(store)) ==> config.headers == old(config.headers)
  {
    var token := GetToken(store);
    if token.Some? && token.value != [] {
      config.headers := config.headers[AuthorizationHeader := Bearer(token.value)];
    }
  }

  /** A failed request as the response interceptor sees it: the HTTP status, when a response arrived. */
  datatype HttpError = HttpError(status: Option<int>, message: string)

  /**
   * The response interceptor's error path: a 401 purges the stored
   * credentials (the page reload that follows is not modelled); the error
   * is rejected again in every case.
   */
  method OnResponseError(store: LocalStorage, err: HttpError) returns (rejected: HttpError)
    modifies store
    ensures rejected == err
    ensures err.status == Some(401) ==> store.items == old(store.items) - {TokenKey, UserKey}
    ensures err.status != Some(401) ==> store.items == old(store.items)
  {
    if err.status == Some(401) {
      RemoveToken(store);
      store.RemoveItem(UserKey);
      assert store.items == old(store.items) - {TokenKey} - {UserKey};
    }
    rejected := err;
  }

  // ---------------------------------------------------------------------
  // authFetch
  // ---------------------------------------------------------------------

  /** The three shapes `RequestInit.headers` may take, or none at all. */
  datatype HeadersInit =
    | NoHeaders
    | HeadersObject(entries: seq<(string, string)>)  // a `Headers` instance, as its `forEach` visits it
    | PairList(pairs: seq<(string, string)>)          // an array of `[name, value]` pairs
    | Record(fields: map<string, string>)             // a plain object

  /** Assigning the pairs one after the other: the last pair for a name wins. */
  function FromPairs(pairs: seq<(string, string)>): map<string, string>
    decreases |pairs|
  {
    if pairs == [] then map[]
    else FromPairs(pairs[..|pairs| - 1])[pairs[|pairs| - 1].0 := pairs[|pairs| - 1].1]
  }

  /** A name is present exactly when some pair carries it, with the value of the last such pair. */
  lemma {:induction false} FromPairsLastWins(pairs: seq<(string, string)>, name: string)
    ensures name in FromPairs(pairs) <==> exists i :: 0 <= i < |pairs| && pairs[i].0 == name
    ensures forall i :: (0 <= i < |pairs| && pairs[i].0 == name
      && (forall j :: i < j < |pairs| ==> pairs[j].0 != name)) ==> FromPairs(pairs)[name] == pairs[i].1
    decreases |pairs|
  {
    if pairs != [] {
      var init := pairs[..|pairs| - 1];
      FromPairsLastWins(init, name);
      forall i | 0 <= i < |init| ensures init[i] == pairs[i] {}
    }
  }

  /** The headers `authFetch` copies from the options before the token is added. */
  function Copied(init: HeadersInit): map<string, string> {
    match init
    case NoHeaders => map[]
    case HeadersObject(entries) => FromPairs(entries)
    case PairList(pairs) => FromPairs(pairs)
    case Record(fields) => fields
  }

  /** The headers `authFetch` sends: the copied ones, and the bearer header when a non-empty token is stored. */
  function MergedHeaders(init: HeadersInit, token: Option<string>): (h: map<string, string>)
    ensures Truthy(token) ==> AuthorizationHeader in h && h[AuthorizationHeader] == Bearer(token.value)
    ensures forall name :: name != AuthorizationHeader ==>
      (name in h <==> name in Copied(init)) && (name in h ==> h[name] == Copied(init)[name])
    ensures !Truthy(token) ==> h == Copied(init)
  {
    if Truthy(token) then Copied(init)[AuthorizationHeader := Bearer(token.value)] else Copied(init)
  }

  datatype Request = Request(url: string, headers: map<string, string>)

  /** Fills the header dictionary from a list of pairs, one assignment per pair. */
  method CopyPairs(pairs: seq<(string, string)>) returns (headers: map<string, string>)
    ensures headers == FromPairs(pairs)
  {
    headers := map[];
    for i := 0 to |pairs|
      invariant headers == FromPairs(pairs[..i])
    {
      assert pairs[..i + 1][..i] == pairs[..i];
      headers := headers[pairs[i].0 := pairs[i].1];
    }
    assert pairs[..|pairs|] == pairs;
  }

  /** `authFetch(url, options)`: the request handed to `fetch`. */
  method AuthFetch(store: LocalStorage, url: string, init: HeadersInit) returns (req: Request)
    ensures req == Request(url, MergedHeaders(init, GetToken(store)))
  {
    var token := GetToken(store);
    var headers: map<string, string> := map[];
    match init {
      case NoHeaders =>
      case HeadersObject(entries) =>
        headers := CopyPairs(entries);
      case PairList(pairs) =>
        headers := CopyPairs(pairs);
      case Record(fields) =>
        headers := headers + fields;
    }
    if token.Some? && token.value != [] {
      headers := headers[AuthorizationHeader := Bearer(token.value)];
    }
    req := Request(url, headers);
  }

  // ---------------------------------------------------------------------
  // Stored prompt overrides
  // ---------------------------------------------------------------------

  /** The closed set of overridable prompt templates. */
  datatype PromptKey = ModuleGeneration | TopicIndex | TopicDevelopment

  const PromptKeys: seq<PromptKey> := [ModuleGeneration, TopicIndex, TopicDevelopment]

  function KeyName(k: PromptKey): string {
    match k
    case ModuleGeneration => "moduleGeneration"
    case TopicIndex => "topicIndex"
    case TopicDevelopment => "topicDevelopment"
  }

  /** Where the override for `k` is stored. */
  function PromptStorageKey(k: PromptKey): string {
    StoragePrefix + KeyName(k)
  }

  /** The three storage keys are distinct and differ from the credential keys. */
  lemma PromptStorageKeysDistinct()
    ensures forall k1: PromptKey, k2: PromptKey :: PromptStorageKey(k1) == PromptStorageKey(k2) ==> k1 == k2
    ensures forall k: PromptKey :: PromptStorageKey(k) != TokenKey && PromptStorageKey(k) != UserKey
  {
    forall k1: PromptKey, k2: PromptKey | PromptStorageKey(k1) == PromptStorageKey(k2) ensures k1 == k2 {
      assert PromptStorageKey(k1)[13] == KeyName(k1)[0];
      assert PromptStorageKey(k1)[17] == KeyName(k1)[4];
      assert PromptStorageKey(k2)[13] == KeyName(k2)[0];
      assert PromptStorageKey(k2)[17] == KeyName(k2)[4];
    }
    forall k: PromptKey ensures PromptStorageKey(k) != TokenKey && PromptStorageKey(k) != UserKey {
      assert PromptStorageKey(k)[0] == 'c';
    }
  }

  /** The override stored for `k`, when it is a non-empty text. */
  predicate StoredOverride(items: map<string, string>, k: PromptKey) {
    PromptStorageKey(k) in items && items[PromptStorageKey(k)] != []
  }

  /**
   * `getCustomPrompts()`: the non-empty stored overrides, or nothing at all
   * when none of the three keys holds a non-empty text.
   */
  function GetCustomPrompts(store: LocalStorage): (r: Option<map<PromptKey, string>>)
    reads store
    ensures r.None? <==> forall k: PromptKey :: !StoredOverride(store.items, k)
    ensures r.Some? ==> forall k: PromptKey ::
      (k in r.value <==> StoredOverride(store.items, k))
      && (k in r.value ==> r.value[k] == store.items[PromptStorageKey(k)])
  {
    var mg := store.Get(PromptStorageKey(ModuleGeneration));
    var ti := store.Get(PromptStorageKey(TopicIndex));
    var td := store.Get(PromptStorageKey(TopicDevelopment));
    var p0: map<PromptKey, string> := map[];
    var p1 := if Truthy(mg) then p0[ModuleGeneration := mg.value] else p0;
    var p2 := if Truthy(ti) then p1[TopicIndex := ti.value] else p1;
    var p3 := if Truthy(td) then p2[TopicDevelopment := td.value] else p2;
    if p3 != map[] then
      assert Truthy(mg) || Truthy(ti) || Truthy(td);
      assert StoredOverride(store.items, ModuleGeneration) || StoredOverride(store.items, TopicIndex)
        || StoredOverride(store.items, TopicDevelopment);
      Some(p3)
    else
      assert ModuleGeneration !in p3 && TopicIndex !in p3 && TopicDevelopment !in p3;
      None
  }

  /** What a request for the saved overrides delivers: a thrown error, or a decoded reply. */
  datatype SavedFetch =
    | FetchThrew
    | SavedReply(success: bool, prompts: Option<map<string, string>>)

  /** The remote holds a non-empty text for `k`. */
  predicate RemoteOverride(prompts: map<string, string>, k: PromptKey) {
    KeyName(k) in prompts && prompts[KeyName(k)] != []
  }

  /** The store after a successful sync: each non-empty remote override replaces the local one. */
  function SyncedItems(items: map<string, string>, prompts: map<string, string>): (r: map<string, string>)
    ensures forall k: PromptKey :: RemoteOverride(prompts, k) ==>
      PromptStorageKey(k) in r && r[PromptStorageKey(k)] == prompts[KeyName(k)]
    ensures forall key :: (forall k: PromptKey :: !(key == PromptStorageKey(k) && RemoteOverride(prompts, k))) ==>
      (key in r <==> key in items) && (key in r ==> r[key] == items[key])
  {
    PromptStorageKeysDistinct();
    var r0 := items;
    var r1 := if RemoteOverride(prompts, ModuleGeneration)
      then r0[PromptStorageKey(ModuleGeneration) := prompts[KeyName(ModuleGeneration)]] else r0;
    var r2 := if RemoteOverride(prompts, TopicIndex)
      then r1[PromptStorageKey(TopicIndex) := prompts[KeyName(TopicIndex)]] else r1;
    if RemoteOverride(prompts, TopicDevelopment)
      then r2[PromptStorageKey(TopicDevelopment) := prompts[KeyName(TopicDevelopment)]] else r2
  }

  /** The one-shot guard of `syncSavedPrompts`, owned by one object instead of the module. */
  class PromptSync {
    var syncDone: bool

    constructor ()
      ensures !syncDone
    {
      syncDone := false;
    }

    /**
     * `syncSavedPrompts()`: returns at once when already called; otherwise sets
     * the guard BEFORE fetching, so a failed fetch is never retried, and writes
     * each non-empty remote override into the store, replacing any local value.
     */
    method Sync(store: LocalStorage, outcome: SavedFetch) returns (fetched: bool)
      modifies this, store
      ensures syncDone
      ensures fetched == !old(syncDone)
      ensures !fetched || outcome.FetchThrew? || !outcome.success || outcome.prompts.None? ==>
        store.items == old(store.items)
      ensures fetched && outcome.SavedReply? && outcome.success && outcome.prompts.Some? ==>
        store.items == SyncedItems(old(store.items), outcome.prompts.value)
    {
      if syncDone {
        return false;
      }
      syncDone := true;
      fetched := true;
      match outcome {
        case FetchThrew =>
        case SavedReply(success, prompts) =>
          if success && prompts.Some? {
            var p := prompts.value;
            for i := 0 to |PromptKeys|
              invariant syncDone
              invariant store.items == SyncedThrough(old(store.items), p, i)
            {
              var key := PromptKeys[i];
              if KeyName(key) in p && p[KeyName(key)] != [] {
                store.SetItem(PromptStorageKey(key), p[KeyName(key)]);
              }
            }
            SyncedThroughAll(old(store.items), p);
          }
      }
    }
  }

  /** The store after the sync loop has visited the first `i` keys. */
  function SyncedThrough(items: map<string, string>, prompts: map<string, string>, i: nat): map<string, string>
    requires i <= |PromptKeys|
    decreases i
  {
    if i == 0 then items
    else
      var prev := SyncedThrough(items, prompts, i - 1);
      var k := PromptKeys[i - 1];
      if RemoteOverride(prompts, k) then prev[PromptStorageKey(k) := prompts[KeyName(k)]] else prev
  }

  /** After all three keys the loop has produced `SyncedItems`. */
  lemma SyncedThroughAll(items: map<string, string>, prompts: map<string, string>)
    ensures SyncedThrough(items, prompts, |PromptKeys|) == SyncedItems(items, prompts)
  {
    assert SyncedThrough(items, prompts, 1) == if RemoteOverride(prompts, ModuleGeneration)
      then items[PromptStorageKey(ModuleGeneration) := prompts[KeyName(ModuleGeneration)]] else items;
  }

  /** Calling the sync repeatedly issues at most one fetch, whatever each call delivers. */
  method SyncRepeatedly(s: PromptSync, store: LocalStorage, outcomes: seq<SavedFetch>) returns (fetches: nat)
    modifies s, store
    ensures fetches == (if !old(s.syncDone) && |outcomes| > 0 then 1 else 0)
    ensures |outcomes| > 0 ==> s.syncDone
  {
    fetches := 0;
    for i := 0 to |outcomes|
      invariant i == 0 ==> s.syncDone == old(s.syncDone)
      invariant i > 0 ==> s.syncDone
      invariant fetches == (if !old(s.syncDone) && i > 0 then 1 else 0)
    {
      var fetched := s.Sync(store, outcomes[i]);
      if fetched { fetches := fetches + 1; }
    }
  }
}
