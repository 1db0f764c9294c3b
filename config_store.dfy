/**
 * The browser-side configuration store (`CompanyConfigService`): a map from
 * `company_id` to template, serialised under a single local-storage key.
 * JSON serialisation is the identity, so the slot holds the map itself; a
 * slot whose text does not parse is `Corrupt`.
 */
module ConfigStore {
  import opened Wrappers
  import opened Types
  import Strings

  const StorageKey := "monthly_paycheck_company_configs"

  /** What `localStorage.getItem(STORAGE_KEY)` holds. */
  /**
   * The properties every object inherits from `Object.prototype`: a bracket
   * lookup on the parsed map finds these even when nothing is stored under
   * them, and each is truthy.
   */
  const InheritedNames: set<string> := {
    "constructor", "hasOwnProperty", "isPrototypeOf", "propertyIsEnumerable", "toLocaleString",
    "toString", "valueOf", "__proto__", "__defineGetter__", "__defineSetter__",
    "__lookupGetter__", "__lookupSetter__"}

  datatype Slot = Absent | Stored(configs: map<string, Template>) | Corrupt

  /** `getAllConfigs` on a slot: the stored map, or `{}` when nothing parses. */
  function ConfigsIn(slot: Slot): map<string, Template> {
    if slot.Stored? then slot.configs else map[]
  }

  /** `{ ...existing, ...imported }`. */
  function Merge(existing: map<string, Template>, imported: map<string, Template>): (r: map<string, Template>)
    ensures r.Keys == existing.Keys + imported.Keys
    ensures forall k :: k in imported ==> r[k] == imported[k]
    ensures forall k :: k in existing && k !in imported ==> r[k] == existing[k]
  {
    existing + imported
  }

  /** What `JSON.parse` of an import file yields. */
  datatype ImportText =
    | NotJson
    | JsonNull
    | JsonScalar                               // a string, number or boolean
    | JsonArray(items: seq<Template>)
    | JsonObject(entries: map<string, Template>)

  /** The ids an enumeration has produced so far. */
  function Elements(ids: seq<string>): set<string> {
    set id | id in ids
  }

  /** Moving one id from the ids still to enumerate to the enumerated ones keeps them a partition of `keys`. */
  lemma EnumerationStep(ids: seq<string>, rest: set<string>, keys: set<string>, id: string)
    requires rest !! Elements(ids) && rest + Elements(ids) == keys
    requires forall i, j :: 0 <= i < j < |ids| ==> ids[i] != ids[j]
    requires |ids| + |rest| == |keys|
    requires id in rest
    ensures rest - {id} !! Elements(ids + [id]) && (rest - {id}) + Elements(ids + [id]) == keys
    ensures forall i, j :: 0 <= i < j < |ids + [id]| ==> (ids + [id])[i] != (ids + [id])[j]
    ensures |ids + [id]| + |rest - {id}| == |keys|
  {
    assert Elements(ids + [id]) == Elements(ids) + {id};
    assert id !in ids;
  }

  /** The keys `"0"`, `"1"`, ... of an array of length `len`. */
  function IndexKeys(len: nat): set<string> {
    set i: nat | i < len :: Strings.NatToString(i)
  }

  lemma IndexKeysStep(len: nat)
    requires len > 0
    ensures IndexKeys(len) == IndexKeys(len - 1) + {Strings.NatToString(len - 1)}
  {
    var a, b := IndexKeys(len), IndexKeys(len - 1);
    forall k | k in a ensures k in b + {Strings.NatToString(len - 1)} {
      var i: nat :| i < len && k == Strings.NatToString(i);
      if i < len - 1 {
        assert k in b;
      }
    }
  }

  /** The own enumerable properties of an array: its indices as decimal strings. */
  function ArrayAsObject(items: seq<Template>): (m: map<string, Template>)
    ensures m.Keys == IndexKeys(|items|)
  {
    if items == [] then map[]
    else
      var n := |items| - 1;
      IndexKeysStep(|items|);
      ArrayAsObject(items[..n])[Strings.NatToString(n) := items[n]]
  }

  /**
   * The import check `typeof v !== 'object' || v === null`: objects and
   * arrays pass, text that is not JSON, `null` and scalars do not.
   */
  function ImportedObject(text: ImportText): (r: Option<map<string, Template>>)
    ensures r.None? <==> text.NotJson? || text.JsonNull? || text.JsonScalar?
    ensures text.JsonObject? ==> r == Some(text.entries)
  {
    match text
    case JsonObject(entries) => Some(entries)
    case JsonArray(items) => Some(ArrayAsObject(items))
    case _ => None
  }

  /** `Object.keys(importedConfigs).length`. */
  function ImportedCount(text: ImportText): nat {
    match text
    case JsonObject(entries) => |entries|
    case JsonArray(items) => |items|
    case _ => 0
  }

  /** Errors the store turns storage exceptions into. */
  datatype StorageError = SaveError | ImportError

  /** `company-configs-<date>.json`, the date being the ISO timestamp up to its `T`. */
  function ExportFileName(nowIso: string): (name: string)
    ensures |name| >= 21 && name[..16] == "company-configs-" && Strings.EndsWith(name, ".json")
    ensures var date := name[16..|name| - 5];
      date <= nowIso && 'T' !in date && (|date| < |nowIso| ==> nowIso[|date|] == 'T')
  {
    var date := Strings.Split(nowIso, 'T')[0];
    Strings.SplitHead(nowIso, 'T');
    var name := "company-configs-" + date + ".json";
    assert name[..16] == "company-configs-";
    assert name[16..|name| - 5] == date;
    assert name[|name| - 5..] == ".json";
    name
  }

  /** On disjoint key sets the order of two imports does not matter. */
  lemma MergeDisjointCommutes(base: map<string, Template>, a: map<string, Template>, b: map<string, Template>)
    requires a.Keys !! b.Keys
    ensures Merge(Merge(base, a), b) == Merge(Merge(base, b), a)
  {
  }

  /** Two imports in a row are one import of their merge. */
  lemma MergeAssociative(base: map<string, Template>, a: map<string, Template>, b: map<string, Template>)
    ensures Merge(Merge(base, a), b) == Merge(base, Merge(a, b))
  {
  }

  class CompanyConfigService {
    /** The local-storage slot under `StorageKey`. */
    var slot: Slot

    constructor (initial: Slot)
      ensures slot == initial
    {
      slot := initial;
    }

    /** `getAllConfigs()`. */
    function AllConfigs(): map<string, Template>
      reads this
    {
      ConfigsIn(slot)
    }

    /** `getConfig(companyId)`: the stored template, or `null`. */
    function GetConfig(companyId: string): (r: Option<Template>)
      reads this
      ensures r.Some? <==> companyId in AllConfigs()
      ensures r.Some? ==> r.value == AllConfigs()[companyId]
    {
      if companyId in AllConfigs() then Some(AllConfigs()[companyId]) else None
    }

    /** The serialised map that `exportConfigs` offers for download. */
    function ExportedConfigs(): map<string, Template>
      reads this
    {
      AllConfigs()
    }

    /**
     * `saveConfig(config)`: insert or overwrite the entry at `config.companyId`.
     * `writeOk` is whether `localStorage.setItem` accepts the write.
     */
    method SaveConfig(config: Template, writeOk: bool) returns (r: Result<(), StorageError>)
      modifies this
      ensures writeOk ==> r.Ok? && slot == Stored(old(AllConfigs())[config.companyId := config])
      ensures writeOk ==> GetConfig(config.companyId) == Some(config)
      ensures writeOk ==> forall id :: id != config.companyId ==> GetConfig(id) == old(GetConfig(id))
      ensures !writeOk ==> r == Err(SaveError) && slot == old(slot)
    {
      var configs := AllConfigs();
      configs := configs[config.companyId := config];
      if !writeOk {
        return Err(SaveError);
      }
      slot := Stored(configs);
      r := Ok(());
    }

    /** Enumerates the stored ids once each, in the backing store's order. */
    method GetCompanyIds() returns (ids: seq<string>)
      ensures |ids| == |AllConfigs()|
      ensures forall id :: id in ids <==> id in AllConfigs()
      ensures forall i, j :: 0 <= i < j < |ids| ==> ids[i] != ids[j]
    {
      var keys := AllConfigs().Keys;
      var rest := keys;
      ids := [];
      while rest != {}
        invariant rest !! Elements(ids)
        invariant rest + Elements(ids) == keys
        invariant forall i, j :: 0 <= i < j < |ids| ==> ids[i] != ids[j]
        invariant |ids| + |rest| == |keys|
        decreases |rest|
      {
        var id :| id in rest;
        EnumerationStep(ids, rest, keys, id);
        ids := ids + [id];
        rest := rest - {id};
      }
      assert Elements(ids) == keys;
    }

    /** `getCompanyList()`: the stored templates, one per id, in the order of `GetCompanyIds`. */
    method GetCompanyList() returns (list: seq<Template>)
      ensures |list| == |AllConfigs()|
      ensures forall t :: t in list <==> t in AllConfigs().Values
    {
      var ids := GetCompanyIds();
      list := [];
      var i := 0;
      while i < |ids|
        invariant 0 <= i <= |ids|
        invariant |list| == i
        invariant forall j :: 0 <= j < i ==> list[j] == AllConfigs()[ids[j]]
      {
        list := list + [AllConfigs()[ids[i]]];
        i := i + 1;
      }
      forall t | t in AllConfigs().Values ensures t in list {
        var id :| id in AllConfigs() && AllConfigs()[id] == t;
        var j :| 0 <= j < |ids| && ids[j] == id;
        assert list[j] == t;
      }
    }

    /**
     * `deleteConfig(companyId)`: the truthiness test `configs[companyId]`
     * passes for a stored id and for an inherited property name; then the
     * own entry, if any, is deleted and the map rewritten, and the answer is
     * true exactly when that rewrite succeeds. Otherwise the slot is untouched.
     */
    method DeleteConfig(companyId: string, writeOk: bool) returns (removed: bool)
      modifies this
      ensures removed <==> (companyId in old(AllConfigs()) || companyId in InheritedNames) && writeOk
      ensures removed ==> slot == Stored(old(AllConfigs()) - {companyId})
      ensures !removed ==> slot == old(slot)
    {
      var configs := AllConfigs();
      if companyId in configs || companyId in InheritedNames {
        configs := configs - {companyId};
        if !writeOk {
          return false;
        }
        slot := Stored(configs);
        return true;
      }
      return false;
    }

    /**
     * `importConfigs(file)`: right-biased merge of the imported object into
     * the stored map; the result is the number of imported keys.
     */
    method ImportConfigs(text: ImportText, writeOk: bool) returns (r: Result<nat, StorageError>)
      modifies this
      ensures ImportedObject(text).None? || !writeOk ==> r == Err(ImportError) && slot == old(slot)
      ensures ImportedObject(text).Some? && writeOk ==>
        r == Ok(ImportedCount(text)) && slot == Stored(Merge(old(AllConfigs()), ImportedObject(text).value))
    {
      var imported := ImportedObject(text);
      if imported.None? {
        return Err(ImportError);
      }
      var merged := Merge(AllConfigs(), imported.value);
      if !writeOk {
        return Err(ImportError);
      }
      slot := Stored(merged);
      r := Ok(ImportedCount(text));
    }

    /** `clearAllConfigs()`: removes the slot. */
    method ClearAllConfigs()
      modifies this
      ensures slot == Absent && AllConfigs() == map[]
    {
      slot := Absent;
    }
  }

  /** An object import returns the number of keys in the file, whether or not they were new. */
  lemma ImportCountIsFileSize(entries: map<string, Template>, existing: map<string, Template>)
    ensures ImportedCount(JsonObject(entries)) == |entries.Keys|
    ensures |Merge(existing, entries)| == |existing.Keys + entries.Keys|
  {
  }

  /** Importing the exported map leaves the stored configurations as they were. */
  lemma ExportImportRoundTrip(slot: Slot)
    ensures ImportedObject(JsonObject(ConfigsIn(slot))).Some?
    ensures Merge(ConfigsIn(slot), ImportedObject(JsonObject(ConfigsIn(slot))).value) == ConfigsIn(slot)
  {
  }
}
