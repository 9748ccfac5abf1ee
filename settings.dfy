/** The settings context: the four request parameters (`SFCConfig`), their
    defaults, partial updates, reset, and the copy kept in local storage
    under "sfc-settings". */
module Settings {
  import opened Wrappers
  import opened Json
  import opened BrowserStorage

  const StorageKey := "sfc-settings"
  const OutsideProvider := "useSettings must be used within a SettingsProvider"

  datatype SFCConfig = SFCConfig(stationId: string, project: string, empNo: string, modelName: string)

  /** `Partial<SFCConfig>`: a field is present or absent. */
  datatype PartialConfig = PartialConfig(stationId: Option<string>, project: Option<string>,
                                         empNo: Option<string>, modelName: Option<string>)

  const NoChange := PartialConfig(None, None, None, None)

  /** `{ ...prev, ...partial }` */
  function Merge(prev: SFCConfig, partial: PartialConfig): (r: SFCConfig)
    ensures r.stationId == (if partial.stationId.Some? then partial.stationId.value else prev.stationId)
    ensures r.project == (if partial.project.Some? then partial.project.value else prev.project)
    ensures r.empNo == (if partial.empNo.Some? then partial.empNo.value else prev.empNo)
    ensures r.modelName == (if partial.modelName.Some? then partial.modelName.value else prev.modelName)
  {
    SFCConfig(partial.stationId.GetOr(prev.stationId), partial.project.GetOr(prev.project),
              partial.empNo.GetOr(prev.empNo), partial.modelName.GetOr(prev.modelName))
  }

  /** `{ ...first, ...second }` on two partials. */
  function Overlay(first: PartialConfig, second: PartialConfig): PartialConfig {
    PartialConfig(if second.stationId.Some? then second.stationId else first.stationId,
                  if second.project.Some? then second.project else first.project,
                  if second.empNo.Some? then second.empNo else first.empNo,
                  if second.modelName.Some? then second.modelName else first.modelName)
  }

  lemma MergeNothing(c: SFCConfig)
    ensures Merge(c, NoChange) == c
  {
  }

  lemma MergeIdempotent(c: SFCConfig, p: PartialConfig)
    ensures Merge(Merge(c, p), p) == Merge(c, p)
  {
  }

  /** Two updates in a row are one update with the later fields winning. */
  lemma MergeCompose(c: SFCConfig, p: PartialConfig, q: PartialConfig)
    ensures Merge(Merge(c, p), q) == Merge(c, Overlay(p, q))
  {
  }

  /** The `import.meta.env.VITE_DEFAULT_*` variables; `None` when unset. */
  datatype Env = Env(stationId: Option<string>, project: Option<string>,
                     empNo: Option<string>, modelName: Option<string>)

  /** `variable || literal` */
  function OrLiteral(variable: Option<string>, literal: string): (r: string)
    ensures variable.Some? && variable.value != "" ==> r == variable.value
    ensures variable.None? || variable.value == "" ==> r == literal
  {
    if variable.Some? && variable.value != "" then variable.value else literal
  }

  /** `DEFAULT_CONFIG` */
  function DefaultConfig(env: Env): SFCConfig {
    SFCConfig(OrLiteral(env.stationId, "PRET_05"), OrLiteral(env.project, "NV_VR200"),
              OrLiteral(env.empNo, "T80969"), OrLiteral(env.modelName, "NV_VR200"))
  }

  /** Each default is its variable when that is set and non-empty, and the
      literal otherwise. */
  lemma DefaultFields(env: Env)
    ensures var d := DefaultConfig(env);
      (d.stationId == if env.stationId.Some? && env.stationId.value != "" then env.stationId.value else "PRET_05") &&
      (d.project == if env.project.Some? && env.project.value != "" then env.project.value else "NV_VR200") &&
      (d.empNo == if env.empNo.Some? && env.empNo.value != "" then env.empNo.value else "T80969") &&
      (d.modelName == if env.modelName.Some? && env.modelName.value != "" then env.modelName.value else "NV_VR200")
  {
  }

  /** `JSON.stringify(settings)`, as a value. */
  function Encode(c: SFCConfig): Value {
    Obj(map["STATION_ID" := Str(c.stationId), "PROJECT" := Str(c.project),
            "EMP_NO" := Str(c.empNo), "MODEL_NAME" := Str(c.modelName)])
  }

  /** A parsed value read as a settings record: an object whose four fields
      are strings. */
  function Decode(v: Value): (r: Option<SFCConfig>)
    ensures r.Some? ==> (v.Obj? && Field(v, "STATION_ID") == Str(r.value.stationId) &&
      Field(v, "PROJECT") == Str(r.value.project) && Field(v, "EMP_NO") == Str(r.value.empNo) &&
      Field(v, "MODEL_NAME") == Str(r.value.modelName))
  {
    var id := Field(v, "STATION_ID");
    var project := Field(v, "PROJECT");
    var emp := Field(v, "EMP_NO");
    var model := Field(v, "MODEL_NAME");
    if id.Str? && project.Str? && emp.Str? && model.Str? then Some(SFCConfig(id.s, project.s, emp.s, model.s))
    else None
  }

  lemma DecodeEncode(c: SFCConfig)
    ensures Decode(Encode(c)) == Some(c)
  {
  }

  /** The lazy initial state: `saved ? JSON.parse(saved) : DEFAULT_CONFIG`.
      There is no `try`, so an item that does not parse makes the provider
      throw while rendering. */
  function InitialSettings(saved: Option<StoredText>, env: Env): (r: Result<SFCConfig, string>)
    ensures !IsPresent(saved) ==> r == Ok(DefaultConfig(env))
    ensures IsPresent(saved) && saved.value.Malformed? ==> r == Err("SyntaxError")
    ensures IsPresent(saved) && saved.value.Serialized? && Decode(saved.value.value).Some? ==>
      r == Ok(Decode(saved.value.value).value)
  {
    if IsPresent(saved) then
      match Parse(saved.value)
      case Err(e) => Err(e)
      case Ok(v) =>
        match Decode(v)
        case Some(c) => Ok(c)
        case None => Err("not a settings record")
    else Ok(DefaultConfig(env))
  }

  /** Reloading the page restores the settings that were last persisted. */
  lemma ReloadRestores(c: SFCConfig, env: Env)
    ensures InitialSettings(Some(Serialized(Encode(c))), env) == Ok(c)
  {
    DecodeEncode(c);
  }

  /** The provider's state and the storage its effect writes to. */
  class Provider {
    var settings: SFCConfig
    const store: Store
    const env: Env

    constructor (store: Store, env: Env, initial: SFCConfig)
      ensures settings == initial && this.store == store && this.env == env
    {
      settings := initial;
      this.store := store;
      this.env := env;
    }

    /** What the persistence effect establishes. */
    predicate Persisted()
      reads this, store
    {
      StorageKey in store.items && store.items[StorageKey] == Serialized(Encode(settings))
    }

    /** The effect on `[settings]`. */
    method Persist()
      modifies store
      ensures store.items == old(store.items)[StorageKey := Serialized(Encode(settings))]
      ensures Persisted()
    {
      store.SetItem(StorageKey, Serialized(Encode(settings)));
    }

    /** `updateSettings(partial)`, followed by the effect. */
    method Update(partial: PartialConfig)
      modifies this, store
      ensures settings == Merge(old(settings), partial)
      ensures store.items == old(store.items)[StorageKey := Serialized(Encode(settings))]
      ensures Persisted()
    {
      settings := Merge(settings, partial);
      Persist();
    }

    /** `resetSettings()`, followed by the effect. */
    method Reset()
      modifies this, store
      ensures settings == DefaultConfig(env)
      ensures store.items == old(store.items)[StorageKey := Serialized(Encode(settings))]
      ensures Persisted()
    {
      settings := DefaultConfig(env);
      Persist();
    }
  }

  /** Mounting `SettingsProvider`: the initial state, then the effect's
      first run; a stored item that does not parse throws. */
  method Mount(store: Store, env: Env) returns (r: Result<Provider, string>)
    modifies store
    ensures var init := InitialSettings(old(store.GetItem(StorageKey)), env);
      r.Ok? <==> init.Ok?
    ensures r.Ok? ==> (fresh(r.value) && r.value.store == store && r.value.env == env &&
      r.value.settings == InitialSettings(old(store.GetItem(StorageKey)), env).value &&
      r.value.Persisted())
    ensures r.Err? ==> store.items == old(store.items) && r.error == InitialSettings(old(store.GetItem(StorageKey)), env).error
  {
    var init := InitialSettings(store.GetItem(StorageKey), env);
    if init.Err? {
      return Err(init.error);
    }
    var p := new Provider(store, env, init.value);
    p.Persist();
    return Ok(p);
  }

  /** `useSettings()`: the context value, or the error thrown outside a
      provider. */
  function UseSettings<C>(context: Option<C>): (r: Result<C, string>)
    ensures context.None? <==> r == Err(OutsideProvider)
    ensures context.Some? ==> r == Ok(context.value)
  {
    match context
    case None => Err(OutsideProvider)
    case Some(c) => Ok(c)
  }
}
