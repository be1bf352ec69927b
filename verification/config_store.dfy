/**
 * Provider configurations and the handlers that keep the persisted list:
 * save (upsert by id), delete (by id), lookup (by id) and the active-id
 * pointer.  The key/value store is an in-memory `Store` value.
 */
module ConfigStore {
  import opened Wrappers
  import opened Record
  import opened Json

  /** One provider configuration.  The optional network options are total
      here: an absent `ignoreSsl` is `false`, absent `customHeaders` are the
      empty object, and an absent `proxyUrl`/`caCertPath` is the empty string
      (all of them falsy, which is all the code asks of them). */
  datatype ApiConfig = ApiConfig(
    id: string,
    providerName: string,
    baseUrl: string,
    apiKey: string,
    modelName: string,
    contextWindow: int,
    customParams: Fields<Json>,
    ignoreSsl: bool,
    customHeaders: Fields<string>,
    proxyUrl: string,
    caCertPath: string)

  /** The persisted state: the `apiConfigs` list and the `activeConfigId` scalar. */
  datatype Store = Store(configs: seq<ApiConfig>, activeId: Option<string>)

  const NotFoundMessage := "Configuration not found"

  /** No two configurations share an id. */
  predicate UniqueIds(configs: seq<ApiConfig>) {
    forall i, j :: 0 <= i < j < |configs| ==> configs[i].id != configs[j].id
  }

  /** Some configuration has this id. */
  predicate HasId(configs: seq<ApiConfig>, id: string) {
    exists i :: 0 <= i < |configs| && configs[i].id == id
  }

  /** `configs.findIndex(c => c.id === id)`, with `None` for -1. */
  function FindIndex(configs: seq<ApiConfig>, id: string): (r: Option<nat>)
    ensures r.Some? ==> r.value < |configs| && configs[r.value].id == id
    ensures r.Some? ==> forall j :: 0 <= j < r.value ==> configs[j].id != id
    ensures r.None? ==> forall j :: 0 <= j < |configs| ==> configs[j].id != id
  {
    if configs == [] then None
    else if configs[0].id == id then Some(0)
    else match FindIndex(configs[1..], id)
      case None => None
      case Some(i) => Some(i + 1)
  }

  /** The save handler: replace the FIRST entry with the same id in place, or
      append a configuration whose id is new. */
  function Save(configs: seq<ApiConfig>, config: ApiConfig): (r: seq<ApiConfig>)
    ensures !HasId(configs, config.id) ==> r == configs + [config]
    ensures forall i :: 0 <= i < |configs| && configs[i].id == config.id
                        && (forall j :: 0 <= j < i ==> configs[j].id != config.id)
                        ==> |r| == |configs| && r[i] == config
                            && forall j :: 0 <= j < |configs| && j != i ==> r[j] == configs[j]
  {
    match FindIndex(configs, config.id)
    case Some(i) => configs[i := config]
    case None => configs + [config]
  }

  /** The delete handler: `configs.filter(c => c.id !== id)`. */
  function Delete(configs: seq<ApiConfig>, id: string): (r: seq<ApiConfig>)
    ensures forall k :: 0 <= k < |r| ==> r[k].id != id
    ensures forall c :: c in configs && c.id != id ==> c in r
    ensures IsSubsequence(r, configs)
    ensures |r| == |configs| - CountId(configs, id)
  {
    if configs == [] then []
    else
      var rest := Delete(configs[1..], id);
      assert configs == [configs[0]] + configs[1..];
      if configs[0].id == id then rest else [configs[0]] + rest
  }

  /** How many configurations carry this id. */
  function CountId(configs: seq<ApiConfig>, id: string): nat {
    if configs == [] then 0
    else (if configs[0].id == id then 1 else 0) + CountId(configs[1..], id)
  }

  /** `a` is `b` with some elements dropped and the rest in their original order. */
  predicate IsSubsequence<T(==)>(a: seq<T>, b: seq<T>)
    decreases |b|
  {
    if a == [] then true
    else if b == [] then false
    else if a[0] == b[0] then IsSubsequence(a[1..], b[1..])
    else IsSubsequence(a, b[1..])
  }

  /** The lookup every request handler starts with:
      `configs.find(c => c.id === id)`, failing with "Configuration not found". */
  function Find(configs: seq<ApiConfig>, id: string): (r: Result<ApiConfig, string>)
    ensures r.Success? <==> HasId(configs, id)
    ensures r.Success? ==> r.value.id == id && r.value in configs
    ensures r.Success? ==> forall i :: 0 <= i < |configs| && configs[i].id == id
                                       && (forall j :: 0 <= j < i ==> configs[j].id != id)
                                       ==> r.value == configs[i]
    ensures r.Failure? ==> r.error == NotFoundMessage
  {
    match FindIndex(configs, id)
    case Some(i) => Success(configs[i])
    case None => Failure(NotFoundMessage)
  }

  // ---------------------------------------------------------------------------
  // Store-level handlers
  // ---------------------------------------------------------------------------

  /** `save-config`: upserts the configuration and leaves the active pointer alone. */
  function SaveConfig(st: Store, config: ApiConfig): (r: Store)
    ensures r.activeId == st.activeId
    ensures Find(r.configs, config.id) == Success(config)
    ensures forall id :: id != config.id ==> Find(r.configs, id) == Find(st.configs, id)
  {
    SaveThenFind(st.configs, config);
    SaveKeepsAllOtherLookups(st.configs, config);
    Store(Save(st.configs, config), st.activeId)
  }

  /** `delete-config`: the active pointer is NOT cleared, even when it named
      the deleted configuration, so it can be left dangling. */
  function DeleteConfig(st: Store, id: string): (r: Store)
    ensures r.activeId == st.activeId
    ensures Find(r.configs, id) == Failure(NotFoundMessage)
    ensures st.activeId == Some(id) ==> Find(r.configs, r.activeId.value).Failure?
    ensures forall other :: other != id ==> Find(r.configs, other) == Find(st.configs, other)
  {
    DeleteKeepsAllOtherLookups(st.configs, id);
    Store(Delete(st.configs, id), st.activeId)
  }

  /** `set-active-config-id`: stores the id without checking that it exists. */
  function SetActiveConfigId(st: Store, id: string): (r: Store)
    ensures r.configs == st.configs && r.activeId == Some(id)
  {
    Store(st.configs, Some(id))
  }

  // ---------------------------------------------------------------------------
  // Properties
  // ---------------------------------------------------------------------------

  /** After a save, looking the id up yields exactly the saved configuration. */
  lemma SaveThenFind(configs: seq<ApiConfig>, config: ApiConfig)
    ensures Find(Save(configs, config), config.id) == Success(config)
  {
    var r := Save(configs, config);
    match FindIndex(configs, config.id)
    case Some(i) =>
      assert r[i] == config;
      assert forall j :: 0 <= j < i ==> r[j] == configs[j];
    case None =>
      assert r[|configs|] == config;
      assert forall j :: 0 <= j < |configs| ==> r[j] == configs[j];
  }

  /** A save never changes what any other id resolves to. */
  lemma SaveKeepsOtherLookups(configs: seq<ApiConfig>, config: ApiConfig, id: string)
    requires id != config.id
    ensures Find(Save(configs, config), id) == Find(configs, id)
  {
    var r := Save(configs, config);
    match FindIndex(configs, config.id)
    case Some(k) =>
      assert r == configs[k := config];
      SameIdsFind(configs, r, id);
    case None =>
      assert r == configs + [config];
      match FindIndex(configs, id)
      case Some(i) =>
        assert r[i] == configs[i];
        assert forall j :: 0 <= j < i ==> r[j] == configs[j];
      case None =>
        assert forall j :: 0 <= j < |r| ==> r[j].id != id by {
          assert forall j :: 0 <= j < |configs| ==> r[j] == configs[j];
        }
  }

  /** `SaveKeepsOtherLookups` for every other id at once. */
  lemma SaveKeepsAllOtherLookups(configs: seq<ApiConfig>, config: ApiConfig)
    ensures forall id :: id != config.id ==> Find(Save(configs, config), id) == Find(configs, id)
  {
    forall id | id != config.id
      ensures Find(Save(configs, config), id) == Find(configs, id)
    {
      SaveKeepsOtherLookups(configs, config, id);
    }
  }

  /** `DeleteKeepsOtherLookups` for every other id at once. */
  lemma DeleteKeepsAllOtherLookups(configs: seq<ApiConfig>, id: string)
    ensures forall other :: other != id ==> Find(Delete(configs, id), other) == Find(configs, other)
  {
    forall other | other != id
      ensures Find(Delete(configs, id), other) == Find(configs, other)
    {
      DeleteKeepsOtherLookups(configs, id, other);
    }
  }

  /** Two lists that agree wherever the id is involved give the same lookup. */
  lemma SameIdsFind(a: seq<ApiConfig>, b: seq<ApiConfig>, id: string)
    requires |a| == |b|
    requires forall j :: 0 <= j < |a| ==> (a[j].id == id <==> b[j].id == id)
    requires forall j :: 0 <= j < |a| && a[j].id == id ==> a[j] == b[j]
    ensures Find(a, id) == Find(b, id)
  {
    match FindIndex(a, id)
    case Some(i) =>
      assert b[i] == a[i];
    case None =>
  }

  /** Saving keeps the ids unique, so repeated saves never duplicate an entry. */
  lemma SaveKeepsIdsUnique(configs: seq<ApiConfig>, config: ApiConfig)
    requires UniqueIds(configs)
    ensures UniqueIds(Save(configs, config))
  {
    var r := Save(configs, config);
    match FindIndex(configs, config.id)
    case Some(i) =>
      assert forall j :: 0 <= j < |r| ==> r[j].id == configs[j].id;
    case None =>
      assert forall j :: 0 <= j < |configs| ==> r[j] == configs[j];
  }

  /** A delete never changes what any other id resolves to. */
  lemma {:induction false} DeleteKeepsOtherLookups(configs: seq<ApiConfig>, id: string, other: string)
    requires other != id
    ensures Find(Delete(configs, id), other) == Find(configs, other)
  {
    if configs != [] {
      DeleteKeepsOtherLookups(configs[1..], id, other);
      var rest := Delete(configs[1..], id);
      FindCons(configs[0], configs[1..], other);
      if configs[0].id != id {
        FindCons(configs[0], rest, other);
      }
      assert configs == [configs[0]] + configs[1..];
    }
  }

  /** Lookup in a list with one more entry in front. */
  lemma FindCons(c: ApiConfig, cs: seq<ApiConfig>, id: string)
    ensures Find([c] + cs, id) == if c.id == id then Success(c) else Find(cs, id)
  {
    assert ([c] + cs)[1..] == cs;
  }

  /** With unique ids, deleting an id that is present shrinks the list by
      exactly one; deleting an absent id leaves the list unchanged in length. */
  lemma {:induction false} DeleteUniqueCount(configs: seq<ApiConfig>, id: string)
    requires UniqueIds(configs)
    ensures CountId(configs, id) == if HasId(configs, id) then 1 else 0
  {
    if configs != [] {
      var tail := configs[1..];
      assert UniqueIds(tail);
      DeleteUniqueCount(tail, id);
      if configs[0].id == id {
        assert !HasId(tail, id) by {
          forall j | 0 <= j < |tail| ensures tail[j].id != id {
            assert tail[j] == configs[j + 1];
          }
        }
      } else {
        assert HasId(configs, id) <==> HasId(tail, id) by {
          if HasId(tail, id) {
            var j :| 0 <= j < |tail| && tail[j].id == id;
            assert configs[j + 1].id == id;
          }
          if HasId(configs, id) {
            var j :| 0 <= j < |configs| && configs[j].id == id;
            assert tail[j - 1].id == id;
          }
        }
      }
    }
  }
}
