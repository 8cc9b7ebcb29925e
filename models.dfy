/**
 * Custom models: the "add custom model" form builds a model record and keeps
 * it in `window.customModels`; when the selected model is a custom one,
 * engine initialisation adds its record to the app configuration's model list
 * unless a record with that id is already there.
 */
module Models {
  import opened Wrappers
  import opened Strings

  datatype ModelRecord = ModelRecord(model: string, modelId: string, modelLib: string,
                                     contextWindowSize: Option<nat>)

  const CustomContextWindowSize: nat := 2048
  const MissingUrlError: string := "Please enter Base URL and WASM URL"
  const CustomIdPrefix: string := "Custom-"

  /** The id of a custom model added with an empty id box: "Custom-" and the time. */
  function GeneratedModelId(now: nat): (id: string)
    ensures |id| > |CustomIdPrefix| && id[..|CustomIdPrefix|] == CustomIdPrefix
    ensures Trim(id) == id
  {
    TrimKeepsNonBlankEnds(CustomIdPrefix + NatToDecimal(now));
    CustomIdPrefix + NatToDecimal(now)
  }

  /**
   * The form's record: every field trimmed; the id defaults to the generated
   * one (the time, `Date.now()`, is a parameter here); a missing base or WASM
   * URL is refused.
   */
  function CustomModelRecord(baseUrlInput: string, wasmUrlInput: string, idInput: string, now: nat)
      : (r: Result<ModelRecord, string>)
    ensures r.Err? <==> Trim(baseUrlInput) == [] || Trim(wasmUrlInput) == []
    ensures r.Err? ==> r.error == MissingUrlError
    ensures r.Ok? ==> r.value.model == Trim(baseUrlInput) && r.value.modelLib == Trim(wasmUrlInput) &&
                      r.value.contextWindowSize == Some(CustomContextWindowSize)
    ensures r.Ok? ==> r.value.modelId != []
    ensures r.Ok? && Trim(idInput) != [] ==> r.value.modelId == Trim(idInput)
    ensures r.Ok? && Trim(idInput) == [] ==> r.value.modelId == GeneratedModelId(now)
  {
    if Trim(baseUrlInput) == [] || Trim(wasmUrlInput) == [] then Err(MissingUrlError)
    else Ok(ModelRecord(Trim(baseUrlInput), CustomModelId(idInput, now), Trim(wasmUrlInput),
                        Some(CustomContextWindowSize)))
  }

  /** The id box trimmed, or the generated id when that is empty. */
  function CustomModelId(idInput: string, now: nat): string {
    if Trim(idInput) != [] then Trim(idInput) else GeneratedModelId(now)
  }

  /** A record's id never has whitespace at either end, whichever way it was chosen. */
  lemma CustomModelIdIsTrimmed(baseUrlInput: string, wasmUrlInput: string, idInput: string, now: nat)
    requires Trim(baseUrlInput) != [] && Trim(wasmUrlInput) != []
    ensures var id := CustomModelRecord(baseUrlInput, wasmUrlInput, idInput, now).value.modelId;
            Trim(id) == id
  {
    TrimIdempotent(idInput);
  }

  /** Without an id of its own, a record's id is "Custom-" followed by the time it was added. */
  lemma GeneratedIdEncodesTime(baseUrlInput: string, wasmUrlInput: string, idInput: string, now: nat)
    requires Trim(idInput) == []
    requires Trim(baseUrlInput) != [] && Trim(wasmUrlInput) != []
    ensures var id := CustomModelRecord(baseUrlInput, wasmUrlInput, idInput, now).value.modelId;
            |id| > |CustomIdPrefix| && id[..|CustomIdPrefix|] == CustomIdPrefix &&
            IsDecimal(id[|CustomIdPrefix|..]) && DecimalValue(id[|CustomIdPrefix|..]) == now
  {
    var id := CustomModelRecord(baseUrlInput, wasmUrlInput, idInput, now).value.modelId;
    assert id == CustomIdPrefix + NatToDecimal(now);
    assert id[|CustomIdPrefix|..] == NatToDecimal(now);
    DecimalRoundTrip(now);
  }

  /** `list.find((m) => m.model_id === id)`: the first record with that id, if any. */
  method FindModel(list: seq<ModelRecord>, id: string) returns (found: Option<ModelRecord>)
    ensures found.None? <==> forall i :: 0 <= i < |list| ==> list[i].modelId != id
    ensures found.Some? ==> exists i :: 0 <= i < |list| && list[i] == found.value && list[i].modelId == id &&
                                        forall j :: 0 <= j < i ==> list[j].modelId != id
  {
    found := None;
    var i := 0;
    while i < |list|
      invariant 0 <= i <= |list|
      invariant forall j :: 0 <= j < i ==> list[j].modelId != id
    {
      if list[i].modelId == id {
        found := Some(list[i]);
        return;
      }
      i := i + 1;
    }
  }

  predicate DistinctIds(list: seq<ModelRecord>) {
    forall i, j :: 0 <= i < j < |list| ==> list[i].modelId != list[j].modelId
  }

  class ModelConfig {
    /** `appConfig.model_list`. */
    var modelList: seq<ModelRecord>
    /** `window.customModels`, keyed by model id. */
    var customModels: map<string, ModelRecord>

    /** Every custom record is filed under its own id. */
    ghost predicate Valid()
      reads this
    {
      forall id :: id in customModels ==> customModels[id].modelId == id
    }

    constructor (prebuilt: seq<ModelRecord>)
      ensures Valid() && modelList == prebuilt && customModels == map[]
    {
      modelList := prebuilt;
      customModels := map[];
    }

    /**
     * The "add custom model" handler: a refused form changes nothing; otherwise
     * the record is filed under its id, replacing any record filed there.
     */
    method AddCustomModel(baseUrlInput: string, wasmUrlInput: string, idInput: string, now: nat)
        returns (r: Result<string, string>)
      requires Valid()
      modifies this`customModels
      ensures Valid()
      ensures match CustomModelRecord(baseUrlInput, wasmUrlInput, idInput, now)
              case Err(e) => r == Err(e) && customModels == old(customModels)
              case Ok(record) => r == Ok(record.modelId) &&
                                 customModels == old(customModels)[record.modelId := record]
    {
      match CustomModelRecord(baseUrlInput, wasmUrlInput, idInput, now) {
        case Err(e) =>
          r := Err(e);
        case Ok(record) =>
          customModels := customModels[record.modelId := record];
          r := Ok(record.modelId);
      }
    }

    /**
     * The custom-model branch of engine initialisation: the selected custom
     * model's record is appended to the model list only when no record there
     * has its id, so ids stay distinct and a second call changes nothing.
     */
    method InjectSelectedModel(selected: string)
      requires Valid()
      modifies this`modelList
      ensures Valid()
      ensures selected !in customModels ==> modelList == old(modelList)
      ensures (selected in customModels &&
               exists i :: 0 <= i < |old(modelList)| && old(modelList)[i].modelId == selected)
              ==> modelList == old(modelList)
      ensures (selected in customModels &&
               forall i :: 0 <= i < |old(modelList)| ==> old(modelList)[i].modelId != selected)
              ==> modelList == old(modelList) + [customModels[selected]]
      ensures selected in customModels ==> exists i :: 0 <= i < |modelList| && modelList[i].modelId == selected
      ensures DistinctIds(old(modelList)) ==> DistinctIds(modelList)
    {
      if selected in customModels {
        var existing := FindModel(modelList, selected);
        if existing.None? {
          modelList := modelList + [customModels[selected]];
          assert modelList[|modelList| - 1].modelId == selected;
        }
      }
    }
  }
}
