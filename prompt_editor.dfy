/**
 * The prompt-override editor: one optional custom text per prompt key, kept
 * in the page's state and mirrored in the shared store under
 * `customPrompt_<key>`, with the server's defaults shown when no override is
 * set. Server replies are parameters.
 */
module PromptEditor {
  import opened Wrappers
  import opened Strings
  import opened Storage
  import opened ApiClient

  datatype SaveStatus = Idle | Saved | SaveError

  /** What the defaults request decodes to. */
  datatype DefaultsReply = DefaultsReply(success: bool, prompts: Option<map<string, string>>, error: Option<string>)

  /** The two parallel requests of the load effect: both decoded, or the combined promise rejected. */
  datatype LoadOutcome =
    | LoadRejected
    | Loaded(defaultsReply: DefaultsReply, savedSuccess: bool, savedPrompts: Option<map<string, string>>)

  /** What the save request delivers: a thrown error, or a decoded reply. */
  datatype SaveOutcome = SaveThrew | SaveReplied(success: bool)

  /** The page's `customs` record: an optional override per key. */
  datatype Overrides = Overrides(moduleGeneration: Option<string>, topicIndex: Option<string>,
                                 topicDevelopment: Option<string>)
  {
    function Get(k: PromptKey): Option<string> {
      match k
      case ModuleGeneration => moduleGeneration
      case TopicIndex => topicIndex
      case TopicDevelopment => topicDevelopment
    }

    /** `{ ...customs, [k]: v }`. */
    function Set(k: PromptKey, v: Option<string>): (r: Overrides)
      ensures forall j: PromptKey :: r.Get(j) == if j == k then v else Get(j)
    {
      match k
      case ModuleGeneration => this.(moduleGeneration := v)
      case TopicIndex => this.(topicIndex := v)
      case TopicDevelopment => this.(topicDevelopment := v)
    }
  }

  /** No key overridden: the page's initial state. */
  const NoOverrides := Overrides(None, None, None)

  /** The override the load effect installs for `k`: the saved text when it is non-empty. */
  function LoadedOverride(saved: map<string, string>, k: PromptKey): Option<string> {
    if RemoteOverride(saved, k) then Some(saved[KeyName(k)]) else None
  }

  /** The overrides the load effect installs: the non-empty saved texts, and nothing for every other key. */
  function LoadedCustoms(saved: map<string, string>): (r: Overrides)
    ensures forall k: PromptKey :: r.Get(k).Some? <==> RemoteOverride(saved, k)
    ensures forall k: PromptKey :: r.Get(k).Some? ==> KeyName(k) in saved && r.Get(k).value == saved[KeyName(k)]
  {
    Overrides(LoadedOverride(saved, ModuleGeneration), LoadedOverride(saved, TopicIndex),
              LoadedOverride(saved, TopicDevelopment))
  }

  /**
   * The body of the save request: exactly the keys that hold an override,
   * each with its text, the empty text included.
   */
  method BuildSavePayload(customs: Overrides) returns (payload: map<string, string>)
    ensures forall k: PromptKey :: KeyName(k) in payload <==> customs.Get(k).Some?
    ensures forall k: PromptKey :: KeyName(k) in payload ==> payload[KeyName(k)] == customs.Get(k).value
    ensures forall name :: name in payload ==> exists k: PromptKey :: KeyName(k) == name
  {
    payload := map[];
    for i := 0 to |PromptKeys|
      invariant forall k: PromptKey :: (KeyName(k) in payload <==> k in PromptKeys[..i] && customs.Get(k).Some?)
      invariant forall k: PromptKey :: KeyName(k) in payload ==> payload[KeyName(k)] == customs.Get(k).value
      invariant forall name :: name in payload ==> exists k: PromptKey :: KeyName(k) == name
    {
      var key := PromptKeys[i];
      if customs.Get(key).Some? {
        payload := payload[KeyName(key) := customs.Get(key).value];
      }
      assert PromptKeys[..i + 1] == PromptKeys[..i] + [key];
    }
    assert PromptKeys[..3] == PromptKeys;
  }

  class PromptEditorPage {
    const store: LocalStorage
    var defaults: Option<map<string, string>>
    var customs: Overrides
    var loadError: string
    var isSaving: bool
    var saveStatus: SaveStatus

    constructor (store: LocalStorage)
      ensures this.store == store
      ensures defaults.None? && loadError == [] && !isSaving && saveStatus == Idle
      ensures customs == NoOverrides
    {
      this.store := store;
      defaults := None;
      customs := NoOverrides;
      loadError := [];
      isSaving := false;
      saveStatus := Idle;
    }

    /**
     * `isCustom(key)`: an override is set, even an empty one. The reset
     * button is enabled exactly then, and exactly then resetting changes
     * the overrides.
     */
    predicate IsCustom(k: PromptKey)
      reads this
      ensures IsCustom(k) <==> customs.Set(k, None) != customs
    {
      assert customs.Get(k).None? ==> customs.Set(k, None) == customs;
      assert customs.Set(k, None).Get(k) == None;
      customs.Get(k).Some?
    }

    /** The editor is rendered (and its inputs usable) once the defaults or a load error are there; until then only a spinner shows. */
    predicate Editable()
      reads this
    {
      defaults.Some? || loadError != []
    }

    /** The server default for `k`, or the empty text when there is none. */
    function DefaultFor(k: PromptKey): string
      reads this
    {
      if defaults.Some? && KeyName(k) in defaults.value then defaults.value[KeyName(k)] else []
    }

    /** `getValue(key)`: `customs.Get(key) ?? defaults?.[key] ?? ''`. */
    function GetValue(k: PromptKey): (r: string)
      reads this
      ensures IsCustom(k) ==> r == customs.Get(k).value
      ensures !IsCustom(k) ==> r == DefaultFor(k)
    {
      customs.Get(k).GetOr(DefaultFor(k))
    }

    /**
     * The load effect. A rejected request only sets the connection message.
     * Otherwise a successful defaults reply installs its prompts, and a failed
     * one sets its error or a fixed message; a successful saved-prompts reply
     * replaces every override, writing each non-empty one to the store.
     */
    method Load(outcome: LoadOutcome)
      modifies this, store
      ensures isSaving == old(isSaving) && saveStatus == old(saveStatus)
      ensures outcome.LoadRejected? ==>
        && loadError == "Failed to connect to server"
        && defaults == old(defaults) && customs == old(customs) && store.items == old(store.items)
      ensures outcome.Loaded? && outcome.defaultsReply.success ==>
        defaults == outcome.defaultsReply.prompts && loadError == old(loadError)
      ensures outcome.Loaded? && !outcome.defaultsReply.success ==>
        defaults == old(defaults) && loadError == Or(outcome.defaultsReply.error, "Failed to load defaults")
      ensures outcome.Loaded? && outcome.savedSuccess && outcome.savedPrompts.Some? ==>
        && customs == LoadedCustoms(outcome.savedPrompts.value)
        && store.items == SyncedItems(old(store.items), outcome.savedPrompts.value)
      ensures outcome.Loaded? && !(outcome.savedSuccess && outcome.savedPrompts.Some?) ==>
        customs == old(customs) && store.items == old(store.items)
    {
      match outcome {
        case LoadRejected =>
          loadError := "Failed to connect to server";
        case Loaded(reply, savedSuccess, savedPrompts) =>
          if reply.success {
            defaults := reply.prompts;
          } else {
            loadError := Or(reply.error, "Failed to load defaults");
          }
          if savedSuccess && savedPrompts.Some? {
            var saved := savedPrompts.value;
            var loaded := NoOverrides;
            ghost var defaults0, loadError0 := defaults, loadError;
            for i := 0 to |PromptKeys|
              invariant forall k: PromptKey :: loaded.Get(k) == if k in PromptKeys[..i] then LoadedOverride(saved, k) else None
              invariant store.items == SyncedThrough(old(store.items), saved, i)
              invariant isSaving == old(isSaving) && saveStatus == old(saveStatus)
              invariant defaults == defaults0 && loadError == loadError0
            {
              var key := PromptKeys[i];
              if KeyName(key) in saved && saved[KeyName(key)] != [] {
                loaded := loaded.Set(key, Some(saved[KeyName(key)]));
                store.SetItem(PromptStorageKey(key), saved[KeyName(key)]);
              }
              assert PromptKeys[..i + 1] == PromptKeys[..i] + [key];
            }
            assert PromptKeys[..3] == PromptKeys;
            SyncedThroughAll(old(store.items), saved);
            customs := loaded;
          }
      }
    }

    /** `handleChange(key, value)`: sets and stores the override and clears the save status. */
    method Change(k: PromptKey, value: string)
      requires Editable()
      modifies this, store
      ensures customs == old(customs).Set(k, Some(value))
      ensures store.items == old(store.items)[PromptStorageKey(k) := value]
      ensures saveStatus == Idle
      ensures defaults == old(defaults) && loadError == old(loadError) && isSaving == old(isSaving)
      ensures IsCustom(k) && GetValue(k) == value
    {
      customs := customs.Set(k, Some(value));
      store.SetItem(PromptStorageKey(k), value);
      saveStatus := Idle;
    }

    /** `handleResetDefault(key)`: drops the override from state and store; the default shows again. */
    method ResetDefault(k: PromptKey)
      requires Editable()
      modifies this, store
      ensures customs == old(customs).Set(k, None)
      ensures store.items == old(store.items) - {PromptStorageKey(k)}
      ensures saveStatus == Idle
      ensures defaults == old(defaults) && loadError == old(loadError) && isSaving == old(isSaving)
      ensures !IsCustom(k) && GetValue(k) == DefaultFor(k)
    {
      customs := customs.Set(k, None);
      store.RemoveItem(PromptStorageKey(k));
      saveStatus := Idle;
    }

    /**
     * The synchronous half of `handleSave`: marks the page as saving, clears
     * the status and builds the request, which carries the current overrides.
     */
    method BeginSave() returns (req: Request, payload: map<string, string>)
      requires Editable()
      modifies this
      ensures isSaving && saveStatus == Idle
      ensures customs == old(customs) && defaults == old(defaults) && loadError == old(loadError)
      ensures forall k: PromptKey :: KeyName(k) in payload <==> customs.Get(k).Some?
      ensures forall k: PromptKey :: KeyName(k) in payload ==> payload[KeyName(k)] == customs.Get(k).value
      ensures forall name :: name in payload ==> exists k: PromptKey :: KeyName(k) == name
      ensures req == Request("/api/prompts/save",
        MergedHeaders(Record(map["Content-Type" := "application/json"]), GetToken(store)))
    {
      isSaving := true;
      saveStatus := Idle;
      payload := BuildSavePayload(customs);
      req := AuthFetch(store, "/api/prompts/save", Record(map["Content-Type" := "application/json"]));
    }

    /** The second half of `handleSave`: the status follows the reply; the overrides are never touched. */
    method FinishSave(outcome: SaveOutcome)
      modifies this
      ensures !isSaving
      ensures saveStatus == (if outcome.SaveReplied? && outcome.success then Saved else SaveError)
      ensures customs == old(customs) && defaults == old(defaults) && loadError == old(loadError)
    {
      match outcome {
        case SaveThrew => saveStatus := SaveError;
        case SaveReplied(success) =>
          saveStatus := if success then Saved else SaveError;
      }
      isSaving := false;
    }
  }
}
