/**
 Custom-field configuration and values: what validation accepts, what it stores, and whether a
 configured default would itself be accepted as a value. JSON numbers are exact.
 */
module FieldConfig {
  import opened Wrappers
  import opened Text
  import opened Sequences

  // A JSON value other than an object, or nothing at all.
  datatype Js = Undefined | Null | Bool(b: bool) | Num(n: real) | Str(s: string) | Arr(items: seq<Js>)

  datatype FieldType = TextField | LongText | Boolean | SingleSelect | MultiSelect | Number | Date

  datatype FieldOption = FieldOption(id: Js, title: Js, active: Js, order: Js)

  datatype Config = Config(
    maxLength: Js, displayFormat: Js,
    options: Option<seq<FieldOption>>, defaultOptionId: Js, defaultOptionIds: Js, minSelected: Js, maxSelected: Js,
    min: Js, max: Js, decimalsAllowed: Js, unit: Js,
    allowPastDates: Js, allowFutureDates: Js,
    defaultValue: Js)

  datatype Problem =
    | BadLimit | NotText | TooLong | BadFormat | NotBoolean | NoOptions | BlankLabel | DuplicateLabel(title: string)
    | NotActive | NotAList | BadCount | TooFew | TooMany | NotANumber | WrongOrder | BelowMin | AboveMax | NotWhole
    | UnitTooLong | BadDate | PastDate | FutureDate

  // What the runtime adds: String() of what is not a string, generated ids, and the date.
  datatype Runtime = Runtime(render: Js -> string, freshId: nat -> string, today: string)

  ghost predicate Sound(rt: Runtime) {
    forall n :: rt.freshId(n) != ""
  }

  predicate Given(js: Js) {
    !js.Undefined? && !js.Null?
  }

  predicate Truthy(js: Js) {
    !js.Undefined? && !js.Null? && js != Bool(false) && js != Num(0.0) && js != Str("")
  }

  predicate IsInteger(js: Js) {
    js.Num? && js.n == js.n.Floor as real
  }

  function Shown(rt: Runtime, js: Js): string {
    if js.Str? then js.s else rt.render(js)
  }

  // A limit that is there and that `n` is above, or below.
  predicate Above(n: real, limit: Js) {
    limit.Num? && n > limit.n
  }

  predicate Below(n: real, limit: Js) {
    limit.Num? && n < limit.n
  }

  // ---------------------------------------------------------------------------------------
  // Dates
  // ---------------------------------------------------------------------------------------

  predicate IsDigit(c: char) {
    '0' <= c <= '9'
  }

  // YYYY-MM-DD.
  predicate IsDate(s: string) {
    && |s| == 10 && s[4] == '-' && s[7] == '-'
    && IsDigit(s[0]) && IsDigit(s[1]) && IsDigit(s[2]) && IsDigit(s[3])
    && IsDigit(s[5]) && IsDigit(s[6]) && IsDigit(s[8]) && IsDigit(s[9])
  }

  // The order of strings, which on dates is the order of days.
  predicate Earlier(a: string, b: string) {
    b != "" && (a == "" || a[0] < b[0] || (a[0] == b[0] && Earlier(a[1..], b[1..])))
  }

  function CheckDateRange(rt: Runtime, date: string, config: Config): Option<Problem> {
    if config.allowPastDates == Bool(false) && Earlier(date, rt.today) then Some(PastDate)
    else if config.allowFutureDates == Bool(false) && Earlier(rt.today, date) then Some(FutureDate)
    else None
  }

  // ---------------------------------------------------------------------------------------
  // Configurations
  // ---------------------------------------------------------------------------------------

  function CheckText(config: Config, ceiling: int): Option<Problem> {
    if Given(config.maxLength)
       && (!IsInteger(config.maxLength) || config.maxLength.n <= 0.0 || config.maxLength.n > ceiling as real) then
      Some(BadLimit)
    else if Given(config.defaultValue) && !config.defaultValue.Str? then Some(NotText)
    else if config.defaultValue.Str? && Above(|config.defaultValue.s| as real, config.maxLength) then Some(TooLong)
    else None
  }

  function NormalBoolean(config: Config): Result<Config, Problem> {
    if Truthy(config.displayFormat) && config.displayFormat != Str("yes_no")
       && config.displayFormat != Str("true_false") then
      Err(BadFormat)
    else if Given(config.defaultValue) && !config.defaultValue.Bool? then Err(NotBoolean)
    else Ok(config.(displayFormat := if Truthy(config.displayFormat) then config.displayFormat else Str("yes_no")))
  }

  function Label(rt: Runtime, option: FieldOption): string {
    if Given(option.title) then Trim(Shown(rt, option.title)) else ""
  }

  function NormalOption(rt: Runtime, option: FieldOption, index: nat): FieldOption {
    FieldOption(
      if Truthy(option.id) then option.id else Str(rt.freshId(index)),
      Str(Label(rt, option)),
      Bool(option.active != Bool(false)),
      if IsInteger(option.order) then option.order else Num(index as real))
  }

  function Key(option: FieldOption): string {
    if option.title.Str? then Lower(option.title.s) else ""
  }

  predicate HasKey(options: seq<FieldOption>, key: string) {
    exists i :: 0 <= i < |options| && Key(options[i]) == key
  }

  // The options as stored; the first bad label is the problem.
  function NormalOptions(rt: Runtime, options: seq<FieldOption>): (r: Result<seq<FieldOption>, Problem>)
    ensures r.Ok? ==> |r.value| == |options|
  {
    if options == [] then Ok([])
    else
      var front :- NormalOptions(rt, options[..|options| - 1]);
      AddOption(rt, front, options[|options| - 1])
  }

  function AddOption(rt: Runtime, front: seq<FieldOption>, option: FieldOption): Result<seq<FieldOption>, Problem> {
    var title := Label(rt, option);
    if title == "" then Err(BlankLabel)
    else if HasKey(front, Lower(title)) then Err(DuplicateLabel(title))
    else Ok(front + [NormalOption(rt, option, |front|)])
  }

  predicate HasActive(options: seq<FieldOption>, id: Js) {
    exists i :: 0 <= i < |options| && Truthy(options[i].active) && options[i].id == id
  }

  function CheckSelected(rt: Runtime, fieldType: FieldType, config: Config,
                         options: seq<FieldOption>): Option<Problem>
  {
    if fieldType == SingleSelect then
      if Given(config.defaultOptionId) && !HasActive(options, Str(Shown(rt, config.defaultOptionId))) then
        Some(NotActive)
      else None
    else if Given(config.minSelected) && (!IsInteger(config.minSelected) || config.minSelected.n < 0.0) then
      Some(BadCount)
    else if Given(config.maxSelected)
            && (!IsInteger(config.maxSelected) || config.maxSelected.n < 1.0
                || config.maxSelected.n > |options| as real) then
      Some(BadCount)
    else if config.maxSelected.Num? && config.minSelected.Num? && config.minSelected.n > config.maxSelected.n then
      Some(WrongOrder)
    else if Given(config.defaultOptionIds) && !AllActive(rt, config.defaultOptionIds, options) then Some(NotActive)
    else None
  }

  // The checks read neither the options as sent nor the default value, and no more of the runtime
  // than how it renders.
  lemma ChecksRead(rt: Runtime, later: Runtime, fieldType: FieldType, config: Config, other: Config,
                   options: seq<FieldOption>)
    requires later.render == rt.render
    requires other == config.(options := other.options, defaultValue := other.defaultValue)
    ensures CheckSelected(later, fieldType, other, options) == CheckSelected(rt, fieldType, config, options)
  {
    if config.defaultOptionIds.Arr? {
      var ids := config.defaultOptionIds.items;
      assert forall i :: 0 <= i < |ids| ==> Shown(rt, ids[i]) == Shown(later, ids[i]);
    }
  }

  predicate AllActive(rt: Runtime, ids: Js, options: seq<FieldOption>) {
    ids.Arr? && forall i :: 0 <= i < |ids.items| ==> HasActive(options, Str(Shown(rt, ids.items[i])))
  }

  function NormalSelect(rt: Runtime, fieldType: FieldType, config: Config): Result<Config, Problem> {
    if config.options.GetOr([]) == [] then Err(NoOptions)
    else
      var options :- NormalOptions(rt, config.options.value);
      var problem := CheckSelected(rt, fieldType, config, options);
      if problem.Some? then Err(problem.value) else Ok(config.(options := Some(options)))
  }

  function CheckNumber(rt: Runtime, config: Config): Option<Problem> {
    if (Given(config.min) && !config.min.Num?) || (Given(config.max) && !config.max.Num?) then Some(NotANumber)
    else if config.min.Num? && config.max.Num? && config.min.n > config.max.n then Some(WrongOrder)
    else if Given(config.unit) && |Shown(rt, config.unit)| > 32 then Some(UnitTooLong)
    else if Given(config.defaultValue) then CheckInRange(config, config.defaultValue)
    else None
  }

  function CheckInRange(config: Config, value: Js): Option<Problem> {
    if !value.Num? then Some(NotANumber)
    else if Below(value.n, config.min) then Some(BelowMin)
    else if Above(value.n, config.max) then Some(AboveMax)
    else if config.decimalsAllowed == Bool(false) && !IsInteger(value) then Some(NotWhole)
    else None
  }

  function CheckDate(rt: Runtime, config: Config, value: Js): Option<Problem> {
    if !value.Str? || !IsDate(value.s) then Some(BadDate) else CheckDateRange(rt, value.s, config)
  }

  function Passing(problem: Option<Problem>, config: Config): Result<Config, Problem> {
    if problem.Some? then Err(problem.value) else Ok(config)
  }

  // The configuration that is stored.
  function Normal(rt: Runtime, fieldType: FieldType, config: Config): Result<Config, Problem> {
    match fieldType
    case TextField => Passing(CheckText(config, 10000), config)
    case LongText => Passing(CheckText(config, 50000), config)
    case Boolean => NormalBoolean(config)
    case SingleSelect => NormalSelect(rt, fieldType, config)
    case MultiSelect => NormalSelect(rt, fieldType, config)
    case Number =>
      var next := config.(decimalsAllowed := Bool(config.decimalsAllowed != Bool(false)));
      Passing(CheckNumber(rt, next), next)
    case Date =>
      var next := config.(allowPastDates := Bool(config.allowPastDates != Bool(false)),
                          allowFutureDates := Bool(config.allowFutureDates != Bool(false)));
      if Given(next.defaultValue) then Passing(CheckDate(rt, next, next.defaultValue), next) else Ok(next)
  }

  method NormalizeOptions(rt: Runtime, rawOptions: seq<FieldOption>) returns (r: Result<seq<FieldOption>, Problem>)
    ensures r == NormalOptions(rt, rawOptions)
  {
    var seenLabels: set<string>, options: seq<FieldOption> := {}, [];
    for index := 0 to |rawOptions|
      invariant NormalOptions(rt, rawOptions[..index]) == Ok(options)
      invariant forall key :: key in seenLabels <==> HasKey(options, key)
    {
      var option := rawOptions[index];
      OneMoreOption(rt, rawOptions, index);
      var title := Label(rt, option);
      if title == "" {
        return Err(BlankLabel);
      }
      var key := Lower(title);
      if key in seenLabels {
        return Err(DuplicateLabel(title));
      }
      seenLabels := seenLabels + {key};
      KeysOfMore(options, NormalOption(rt, option, index));
      options := options + [NormalOption(rt, option, index)];
    }
    assert rawOptions[..|rawOptions|] == rawOptions;
    return Ok(options);
  }

  lemma KeysOfMore(options: seq<FieldOption>, option: FieldOption)
    ensures forall key :: HasKey(options + [option], key) <==> HasKey(options, key) || key == Key(option)
  {
    forall key
      ensures HasKey(options + [option], key) <==> HasKey(options, key) || key == Key(option)
    {
      if i :| 0 <= i < |options| && Key(options[i]) == key {
        assert (options + [option])[i] == options[i];
      }
      assert (options + [option])[|options|] == option;
    }
  }

  lemma {:induction false} FirstBadOption(rt: Runtime, options: seq<FieldOption>, k: nat)
    requires k <= |options| && NormalOptions(rt, options[..k]).Err?
    ensures NormalOptions(rt, options) == NormalOptions(rt, options[..k])
    decreases |options|
  {
    if k == |options| {
      assert options[..k] == options;
    } else {
      assert options[..|options| - 1][..k] == options[..k];
      FirstBadOption(rt, options[..|options| - 1], k);
    }
  }

  lemma OneMoreOption(rt: Runtime, options: seq<FieldOption>, i: nat)
    requires i < |options| && NormalOptions(rt, options[..i]).Ok?
    ensures NormalOptions(rt, options[..i + 1]) == AddOption(rt, NormalOptions(rt, options[..i]).value, options[i])
    ensures NormalOptions(rt, options[..i + 1]).Err? ==>
              NormalOptions(rt, options) == NormalOptions(rt, options[..i + 1])
  {
    assert options[..i + 1][..i] == options[..i];
    if NormalOptions(rt, options[..i + 1]).Err? {
      FirstBadOption(rt, options, i + 1);
    }
  }

  method ValidateConfigShape(rt: Runtime, fieldType: FieldType, rawConfig: Config) returns (r: Result<Config, Problem>)
    ensures r == Normal(rt, fieldType, rawConfig)
  {
    var config := rawConfig;
    match fieldType {
      case TextField =>
        r := Passing(CheckText(config, 10000), config);
      case LongText =>
        r := Passing(CheckText(config, 50000), config);
      case Boolean =>
        r := NormalBoolean(config);
      case SingleSelect =>
        r := ValidateSelect(rt, fieldType, config);
      case MultiSelect =>
        r := ValidateSelect(rt, fieldType, config);
      case Number =>
        config := config.(decimalsAllowed := Bool(config.decimalsAllowed != Bool(false)));
        r := Passing(CheckNumber(rt, config), config);
      case Date =>
        config := config.(allowPastDates := Bool(config.allowPastDates != Bool(false)));
        config := config.(allowFutureDates := Bool(config.allowFutureDates != Bool(false)));
        r := if Given(config.defaultValue) then Passing(CheckDate(rt, config, config.defaultValue), config)
             else Ok(config);
    }
  }

  method ValidateSelect(rt: Runtime, fieldType: FieldType, rawConfig: Config) returns (r: Result<Config, Problem>)
    ensures r == NormalSelect(rt, fieldType, rawConfig)
  {
    var config := rawConfig;
    var rawOptions := config.options.GetOr([]);
    if rawOptions == [] {
      return Err(NoOptions);
    }
    var options :- NormalizeOptions(rt, rawOptions);
    config := config.(options := Some(options));
    ChecksRead(rt, rt, fieldType, rawConfig, config, options);
    return Passing(CheckSelected(rt, fieldType, config, options), config);
  }

  // ---------------------------------------------------------------------------------------
  // Validating twice
  // ---------------------------------------------------------------------------------------

  predicate IsNormalOption(option: FieldOption) {
    && Truthy(option.id) && option.title.Str? && option.title.s != "" && Trim(option.title.s) == option.title.s
    && option.active.Bool? && IsInteger(option.order)
  }

  // Labels are distinct, ignoring case.
  predicate LabelsDistinct(options: seq<FieldOption>) {
    forall i, j :: 0 <= i < j < |options| ==> Key(options[i]) != Key(options[j])
  }

  lemma LabelsApart(front: seq<FieldOption>, option: FieldOption)
    ensures LabelsDistinct(front + [option]) <==> LabelsDistinct(front) && !HasKey(front, Key(option))
  {
    var all := front + [option];
    if LabelsDistinct(all) {
      assert forall i :: 0 <= i < |front| ==> all[i] == front[i] && Key(all[i]) != Key(all[|front|]);
    }
  }

  lemma {:induction false} StoredOptionsAreNormal(rt: Runtime, options: seq<FieldOption>)
    requires Sound(rt) && NormalOptions(rt, options).Ok?
    ensures var stored := NormalOptions(rt, options).value;
            LabelsDistinct(stored) && forall i :: 0 <= i < |stored| ==> IsNormalOption(stored[i])
  {
    if options != [] {
      var last := |options| - 1;
      StoredOptionsAreNormal(rt, options[..last]);
      StoredOptionIsNormal(rt, options[last], last);
      var front, added := NormalOptions(rt, options[..last]).value, NormalOption(rt, options[last], last);
      LabelsApart(front, added);
      assert NormalOptions(rt, options).value == front + [added];
    }
  }

  lemma StoredOptionIsNormal(rt: Runtime, option: FieldOption, index: nat)
    requires Sound(rt) && Label(rt, option) != ""
    ensures IsNormalOption(NormalOption(rt, option, index))
    ensures Key(NormalOption(rt, option, index)) == Lower(Label(rt, option))
  {
    TrimIdempotent(Shown(rt, option.title));
    assert IsInteger(Num(index as real));
  }

  lemma NormalOptionAdded(rt: Runtime, front: seq<FieldOption>, option: FieldOption)
    requires IsNormalOption(option) && !HasKey(front, Key(option))
    ensures AddOption(rt, front, option) == Ok(front + [option])
  {
    assert Label(rt, option) == option.title.s;
    assert NormalOption(rt, option, |front|) == option;
  }

  lemma {:induction false} NormalOptionsStay(rt: Runtime, stored: seq<FieldOption>)
    requires LabelsDistinct(stored) && forall i :: 0 <= i < |stored| ==> IsNormalOption(stored[i])
    ensures NormalOptions(rt, stored) == Ok(stored)
  {
    if stored != [] {
      var last := |stored| - 1;
      assert stored[..last] + [stored[last]] == stored;
      NormalOptionsStay(rt, stored[..last]);
      LabelsApart(stored[..last], stored[last]);
      NormalOptionAdded(rt, stored[..last], stored[last]);
    }
  }

  lemma SelectStays(rt: Runtime, later: Runtime, fieldType: FieldType, config: Config)
    requires Sound(rt) && later.render == rt.render && NormalSelect(rt, fieldType, config).Ok?
    ensures NormalSelect(later, fieldType, NormalSelect(rt, fieldType, config).value)
            == NormalSelect(rt, fieldType, config)
  {
    var stored := NormalSelect(rt, fieldType, config).value;
    StoredOptionsAreNormal(rt, config.options.value);
    NormalOptionsStay(later, stored.options.value);
    ChecksRead(rt, later, fieldType, config, stored, stored.options.value);
  }

  // On a fixed day, a stored configuration validates again to itself, whatever ids the second
  // validation would generate.
  lemma ConfigStays(rt: Runtime, later: Runtime, fieldType: FieldType, config: Config)
    requires Sound(rt) && later.render == rt.render && later.today == rt.today
    requires Normal(rt, fieldType, config).Ok?
    ensures Normal(later, fieldType, Normal(rt, fieldType, config).value) == Normal(rt, fieldType, config)
  {
    if fieldType == SingleSelect || fieldType == MultiSelect {
      SelectStays(rt, later, fieldType, config);
    }
  }

  // A stored select has options, with labels that are trimmed, not blank, and distinct ignoring
  // case.
  lemma StoredLabels(rt: Runtime, fieldType: FieldType, config: Config)
    requires Sound(rt) && (fieldType == SingleSelect || fieldType == MultiSelect) && Normal(rt, fieldType, config).Ok?
    ensures var options := Normal(rt, fieldType, config).value.options;
            && options.Some? && options.value != [] && LabelsDistinct(options.value)
            && forall i :: 0 <= i < |options.value| ==> IsNormalOption(options.value[i])
  {
    StoredOptionsAreNormal(rt, config.options.value);
  }

  // ---------------------------------------------------------------------------------------
  // Values
  // ---------------------------------------------------------------------------------------

  predicate AreTexts(items: seq<Js>) {
    forall i :: 0 <= i < |items| ==> items[i].Str?
  }

  // The option a single-select value names: the comparison is strict, and never true of arrays.
  predicate Names(options: seq<FieldOption>, raw: Js) {
    !raw.Arr? && HasActive(options, raw)
  }

  function NormalSelection(config: Config, items: seq<Js>): Result<Js, Problem> {
    var options, chosen := config.options.GetOr([]), Distinct(items);
    if exists i :: 0 <= i < |chosen| && !HasActive(options, chosen[i]) then Err(NotActive)
    else if Below(|chosen| as real, config.minSelected) then Err(TooFew)
    else if Above(|chosen| as real, config.maxSelected) then Err(TooMany)
    else Ok(Arr(chosen))
  }

  function NormalValue(rt: Runtime, fieldType: FieldType, config: Config, raw: Js): Result<Js, Problem> {
    match fieldType
    case TextField => NormalText(config, raw)
    case LongText => NormalText(config, raw)
    case Boolean => if raw.Bool? then Ok(raw) else Err(NotBoolean)
    case SingleSelect => if Names(config.options.GetOr([]), raw) then Ok(raw) else Err(NotActive)
    case MultiSelect => if raw.Arr? && AreTexts(raw.items) then NormalSelection(config, raw.items) else Err(NotAList)
    case Number => Checked(CheckInRange(config, raw), raw)
    case Date => Checked(CheckDate(rt, config, raw), raw)
  }

  function NormalText(config: Config, raw: Js): Result<Js, Problem> {
    if !raw.Str? then Err(NotText)
    else if Above(|Trim(raw.s)| as real, config.maxLength) then Err(TooLong)
    else Ok(Str(Trim(raw.s)))
  }

  function Checked(problem: Option<Problem>, raw: Js): Result<Js, Problem> {
    if problem.Some? then Err(problem.value) else Ok(raw)
  }

  method ValidateSelection(config: Config, raw: Js) returns (r: Result<Js, Problem>)
    ensures r == if raw.Arr? && AreTexts(raw.items) then NormalSelection(config, raw.items) else Err(NotAList)
  {
    if !raw.Arr? || !AreTexts(raw.items) {
      return Err(NotAList);
    }
    var options := config.options.GetOr([]);
    var activeIds := set i | 0 <= i < |options| && Truthy(options[i].active) :: options[i].id;
    assert forall id :: id in activeIds <==> HasActive(options, id);
    var deduped := Distinct(raw.items);
    for k := 0 to |deduped|
      invariant forall i :: 0 <= i < k ==> HasActive(options, deduped[i])
    {
      if deduped[k] !in activeIds {
        return Err(NotActive);
      }
    }
    if Below(|deduped| as real, config.minSelected) {
      return Err(TooFew);
    }
    if Above(|deduped| as real, config.maxSelected) {
      return Err(TooMany);
    }
    return Ok(Arr(deduped));
  }

  // A stored value is stored as itself when sent again.
  lemma ValueStays(rt: Runtime, fieldType: FieldType, config: Config, raw: Js)
    requires NormalValue(rt, fieldType, config, raw).Ok?
    ensures NormalValue(rt, fieldType, config, NormalValue(rt, fieldType, config, raw).value)
            == NormalValue(rt, fieldType, config, raw)
  {
    match fieldType {
      case TextField => TrimIdempotent(raw.s);
      case LongText => TrimIdempotent(raw.s);
      case MultiSelect =>
        DistinctIsTheSet(raw.items);
        DistinctOfDistinct(Distinct(raw.items));
        TextsStayTexts(raw.items);
      case _ =>
    }
  }

  lemma TextsStayTexts(items: seq<Js>)
    requires AreTexts(items)
    ensures AreTexts(Distinct(items))
  {
    DistinctIsTheSet(items);
    forall i | 0 <= i < |Distinct(items)|
      ensures Distinct(items)[i].Str?
    {
      assert Distinct(items)[i] in items;
    }
  }

  // An accepted selection is stored as the same options, each once and in the order first named,
  // all of them active and as many as the bounds allow.
  lemma SelectionKept(rt: Runtime, config: Config, raw: Js, chosen: seq<Js>)
    requires NormalValue(rt, MultiSelect, config, raw) == Ok(Arr(chosen))
    ensures raw.Arr? && NoDuplicates(chosen) && forall x :: x in chosen <==> x in raw.items
    ensures forall i, j :: 0 <= i < j < |chosen| ==>
              chosen[i] in raw.items && chosen[j] in raw.items
              && FirstIndex(raw.items, chosen[i]) < FirstIndex(raw.items, chosen[j])
    ensures forall x :: x in chosen ==> HasActive(config.options.GetOr([]), x)
    ensures !Below(|chosen| as real, config.minSelected) && !Above(|chosen| as real, config.maxSelected)
  {
    DistinctIsTheSet(raw.items);
    forall i: nat, j: nat | i < j < |chosen|
      ensures chosen[i] in raw.items && chosen[j] in raw.items
      ensures FirstIndex(raw.items, chosen[i]) < FirstIndex(raw.items, chosen[j])
    {
      DistinctKeepsOrder(raw.items, i, j);
    }
  }

  // ---------------------------------------------------------------------------------------
  // Defaults
  // ---------------------------------------------------------------------------------------

  function ApplyDefaultIfMissing(config: Config, fieldType: FieldType): Option<Js> {
    if !config.defaultValue.Undefined? then Some(config.defaultValue)
    else if fieldType == SingleSelect && Truthy(config.defaultOptionId) then Some(config.defaultOptionId)
    else if fieldType == MultiSelect && config.defaultOptionIds.Arr? && config.defaultOptionIds.items != [] then
      Some(config.defaultOptionIds)
    else None
  }

  predicate IsSelect(fieldType: FieldType) {
    fieldType == SingleSelect || fieldType == MultiSelect
  }

  predicate IsTrimmed(js: Js) {
    js.Str? && Trim(js.s) == js.s
  }

  // A stored default other than a select's passes value validation on the same day. It is stored
  // unchanged, but for a text default with space around it, which a typed value would lose and a
  // default keeps.
  lemma DefaultPasses(rt: Runtime, fieldType: FieldType, config: Config)
    requires Normal(rt, fieldType, config).Ok? && !IsSelect(fieldType)
    requires Given(Normal(rt, fieldType, config).value.defaultValue)
    ensures var stored := Normal(rt, fieldType, config).value;
            && ApplyDefaultIfMissing(stored, fieldType) == Some(stored.defaultValue)
            && NormalValue(rt, fieldType, stored, stored.defaultValue).Ok?
            && (NormalValue(rt, fieldType, stored, stored.defaultValue) == Ok(stored.defaultValue)
                <==> fieldType == Boolean || fieldType == Number || fieldType == Date || IsTrimmed(stored.defaultValue))
  {
  }

  // A single-select default option passes if it is a string; as anything else it is compared
  // strictly, after having been looked up by its text.
  lemma DefaultOptionPassesIff(rt: Runtime, config: Config)
    requires Normal(rt, SingleSelect, config).Ok? && Given(config.defaultOptionId)
    ensures var stored := Normal(rt, SingleSelect, config).value;
            NormalValue(rt, SingleSelect, stored, stored.defaultOptionId).Ok?
            <==> config.defaultOptionId.Str? || Names(stored.options.value, config.defaultOptionId)
  {
  }

  lemma ActiveOnceEach(options: seq<FieldOption>, items: seq<Js>)
    ensures (forall i :: 0 <= i < |Distinct(items)| ==> HasActive(options, Distinct(items)[i]))
       <==> (forall i :: 0 <= i < |items| ==> HasActive(options, items[i]))
  {
    DistinctIsTheSet(items);
    forall i | 0 <= i < |items|
      ensures items[i] in Distinct(items)
    {
    }
    forall i | 0 <= i < |Distinct(items)|
      ensures Distinct(items)[i] in items
    {
      ElementOfDistinct(items, i);
    }
  }

  lemma SelectionPassesIff(config: Config, items: seq<Js>)
    ensures NormalSelection(config, items).Ok?
       <==> && (forall i :: 0 <= i < |items| ==> HasActive(config.options.GetOr([]), items[i]))
            && !Below(|Distinct(items)| as real, config.minSelected)
            && !Above(|Distinct(items)| as real, config.maxSelected)
  {
    ActiveOnceEach(config.options.GetOr([]), items);
  }

  lemma AcceptedIds(rt: Runtime, config: Config)
    requires Normal(rt, MultiSelect, config).Ok? && Given(config.defaultOptionIds)
    ensures var stored := Normal(rt, MultiSelect, config).value;
            stored.defaultOptionIds.Arr? && stored.options.Some?
              && AllActive(rt, stored.defaultOptionIds, stored.options.value)
  {
    var stored := Normal(rt, MultiSelect, config).value;
    assert stored.defaultOptionIds == config.defaultOptionIds;
    assert CheckSelected(rt, MultiSelect, config, stored.options.value).None?;
  }

  // A multi-select's default options pass if and only if they are all strings and, counted once
  // each, within the bounds, which accepting the configuration does not check.
  lemma DefaultSelectionPassesIff(rt: Runtime, config: Config)
    requires Normal(rt, MultiSelect, config).Ok? && Given(config.defaultOptionIds)
    ensures var stored := Normal(rt, MultiSelect, config).value;
            var ids := stored.defaultOptionIds;
            && ids.Arr?
            && (NormalValue(rt, MultiSelect, stored, ids).Ok?
                <==> && AreTexts(ids.items)
                     && !Below(|Distinct(ids.items)| as real, stored.minSelected)
                     && !Above(|Distinct(ids.items)| as real, stored.maxSelected))
  {
    var stored := Normal(rt, MultiSelect, config).value;
    AcceptedIds(rt, config);
    var items := stored.defaultOptionIds.items;
    SelectionPassesIff(stored, items);
    if AreTexts(items) {
      assert forall i :: 0 <= i < |items| ==> Str(Shown(rt, items[i])) == items[i];
    }
  }

  const TWO_OPTIONS := [
    FieldOption(Str("a"), Str("A"), Bool(true), Num(0.0)), FieldOption(Str("b"), Str("B"), Bool(true), Num(1.0))]

  const BARE := Config(Undefined, Undefined, None, Undefined, Undefined, Undefined, Undefined,
                       Undefined, Undefined, Undefined, Undefined, Undefined, Undefined, Undefined)

  // Two must be selected, and the default selects one.
  const TOO_FEW_BY_DEFAULT := BARE.(options := Some(TWO_OPTIONS), defaultOptionIds := Arr([Str("a")]),
                                    minSelected := Num(2.0))

  lemma TwoOptionsAreNormal(rt: Runtime)
    ensures NormalOptions(rt, TWO_OPTIONS) == Ok(TWO_OPTIONS)
  {
    TrimmedStays("A");
    TrimmedStays("B");
    assert Key(TWO_OPTIONS[0])[0] == 'a' && Key(TWO_OPTIONS[1])[0] == 'b';
    assert IsInteger(Num(0.0)) && IsInteger(Num(1.0));
    NormalOptionsStay(rt, TWO_OPTIONS);
  }

  lemma TwoOptionsChecked(rt: Runtime)
    ensures CheckSelected(rt, MultiSelect, TOO_FEW_BY_DEFAULT, TWO_OPTIONS) == None
  {
    assert HasActive(TWO_OPTIONS, Str("a")) by {
      assert TWO_OPTIONS[0].id == Str("a");
    }
    assert IsInteger(Num(2.0));
  }

  // The bounds do fail: this configuration is accepted and its default is not a value.
  lemma DefaultSelectionTooFew(rt: Runtime)
    ensures Normal(rt, MultiSelect, TOO_FEW_BY_DEFAULT) == Ok(TOO_FEW_BY_DEFAULT)
    ensures ApplyDefaultIfMissing(TOO_FEW_BY_DEFAULT, MultiSelect) == Some(Arr([Str("a")]))
    ensures NormalValue(rt, MultiSelect, TOO_FEW_BY_DEFAULT, Arr([Str("a")])).Err?
  {
    TwoOptionsAreNormal(rt);
    TwoOptionsChecked(rt);
    DistinctIsTheSet([Str("a")]);
  }

  // The option is looked up by the text "5" and compared with the number.
  const NUMBERED := [FieldOption(Str("5"), Str("Five"), Bool(true), Num(0.0))]
  const DEFAULT_BY_NUMBER := BARE.(options := Some(NUMBERED), defaultOptionId := Num(5.0))

  lemma NumberedIsNormal(rt: Runtime)
    ensures NormalOptions(rt, NUMBERED) == Ok(NUMBERED)
  {
    TrimmedStays("Five");
    assert IsInteger(Num(0.0)) && IsNormalOption(NUMBERED[0]);
    NormalOptionsStay(rt, NUMBERED);
  }

  lemma FiveIsItsText(rt: Runtime)
    requires rt.render(Num(5.0)) == "5"
    ensures CheckSelected(rt, SingleSelect, DEFAULT_BY_NUMBER, NUMBERED) == None && !HasActive(NUMBERED, Num(5.0))
  {
    assert Shown(rt, Num(5.0)) == "5";
    assert NUMBERED[0].id == Str("5");
    assert HasActive(NUMBERED, Str("5"));
  }

  lemma DefaultByNumberRefused(rt: Runtime)
    requires rt.render(Num(5.0)) == "5"
    ensures Normal(rt, SingleSelect, DEFAULT_BY_NUMBER) == Ok(DEFAULT_BY_NUMBER)
    ensures ApplyDefaultIfMissing(DEFAULT_BY_NUMBER, SingleSelect) == Some(Num(5.0))
    ensures NormalValue(rt, SingleSelect, DEFAULT_BY_NUMBER, Num(5.0)).Err?
  {
    NumberedIsNormal(rt);
    FiveIsItsText(rt);
  }

  // A select's `defaultValue` is never looked at when the configuration is accepted, yet it is what
  // a missing value becomes.
  lemma SelectDefaultValueUnchecked(rt: Runtime, fieldType: FieldType, config: Config, value: Js)
    requires IsSelect(fieldType)
    ensures NormalSelect(rt, fieldType, config.(defaultValue := value))
         == if NormalSelect(rt, fieldType, config).Ok? then
              Ok(NormalSelect(rt, fieldType, config).value.(defaultValue := value))
            else NormalSelect(rt, fieldType, config)
    ensures !value.Undefined? ==> ApplyDefaultIfMissing(config.(defaultValue := value), fieldType) == Some(value)
  {
    if config.options.GetOr([]) != [] {
      var options := NormalOptions(rt, config.options.value);
      if options.Ok? {
        ChecksRead(rt, rt, fieldType, config, config.(defaultValue := value), options.value);
      }
    }
  }

  // It passes value validation if and only if it is itself the id of an active option, or a list of
  // such ids that, counted once each, is within the bounds.
  lemma SelectDefaultPassesIff(rt: Runtime, fieldType: FieldType, config: Config)
    requires IsSelect(fieldType) && Normal(rt, fieldType, config).Ok?
    ensures var stored := Normal(rt, fieldType, config).value;
            var value, options := config.defaultValue, stored.options.GetOr([]);
            NormalValue(rt, fieldType, stored, value).Ok?
            <==> if fieldType == SingleSelect then Names(options, value)
                 else && value.Arr? && AreTexts(value.items)
                      && (forall i :: 0 <= i < |value.items| ==> HasActive(options, value.items[i]))
                      && !Below(|Distinct(value.items)| as real, config.minSelected)
                      && !Above(|Distinct(value.items)| as real, config.maxSelected)
  {
    var stored, value := Normal(rt, fieldType, config).value, config.defaultValue;
    assert stored.minSelected == config.minSelected && stored.maxSelected == config.maxSelected;
    if value.Arr? {
      SelectionPassesIff(stored, value.items);
    }
  }

  // This one names no option at all.
  const DEFAULT_UNKNOWN := BARE.(options := Some(TWO_OPTIONS), defaultValue := Str("c"))

  lemma DefaultUnknownRefused(rt: Runtime)
    ensures Normal(rt, SingleSelect, DEFAULT_UNKNOWN) == Ok(DEFAULT_UNKNOWN)
    ensures ApplyDefaultIfMissing(DEFAULT_UNKNOWN, SingleSelect) == Some(Str("c"))
    ensures NormalValue(rt, SingleSelect, DEFAULT_UNKNOWN, Str("c")).Err?
  {
    TwoOptionsAreNormal(rt);
  }

  // ---------------------------------------------------------------------------------------
  // What is accepted
  // ---------------------------------------------------------------------------------------

  // The first `k` characters agree and the next decides.
  ghost predicate DiffersAt(a: string, b: string, k: nat) {
    && k <= |a| && k < |b| && a[..k] == b[..k] && (k == |a| || a[k] < b[k])
  }

  lemma FirstAgrees(a: string, b: string, k: nat)
    requires DiffersAt(a, b, k)
    ensures k == 0 || a[0] == b[0]
  {
    if k > 0 {
      assert a[..k][0] == b[..k][0];
    }
  }

  // Earlier is the order of the first difference, which on dates of one form is that of the days.
  lemma {:induction false} EarlierIff(a: string, b: string)
    ensures Earlier(a, b) <==> exists k: nat :: DiffersAt(a, b, k)
  {
    if b == "" {
    } else if a == "" {
      assert DiffersAt(a, b, 0);
    } else if a[0] != b[0] {
      if Earlier(a, b) {
        assert DiffersAt(a, b, 0);
      }
      if k: nat :| DiffersAt(a, b, k) {
        FirstAgrees(a, b, k);
      }
    } else {
      EarlierIff(a[1..], b[1..]);
      if k: nat :| DiffersAt(a[1..], b[1..], k) {
        assert a[..k + 1] == [a[0]] + a[1..][..k] && b[..k + 1] == [b[0]] + b[1..][..k];
        assert DiffersAt(a, b, k + 1);
      }
      if k: nat :| DiffersAt(a, b, k) {
        assert k > 0;
        assert a[1..][..k - 1] == a[..k][1..] && b[1..][..k - 1] == b[..k][1..];
        assert DiffersAt(a[1..], b[1..], k - 1);
      }
    }
  }

  // No day is earlier than one that is earlier than it.
  lemma {:induction false} NotBothEarlier(a: string, b: string)
    requires Earlier(a, b)
    ensures !Earlier(b, a)
  {
    if a != "" && a[0] == b[0] {
      NotBothEarlier(a[1..], b[1..]);
    }
  }

  lemma DayAfter(day: string, next: string, k: nat)
    requires IsDate(day) && IsDate(next) && DiffersAt(day, next, k)
    ensures Earlier(day, next) && !Earlier(next, day)
  {
    EarlierIff(day, next);
    NotBothEarlier(day, next);
  }

  // A date is accepted, unchanged, if and only if it has the form of one and is neither before today
  // where the past is shut out nor after it where the future is.
  lemma AcceptedDateIff(rt: Runtime, config: Config, raw: Js)
    ensures NormalValue(rt, Date, config, raw) == Ok(raw)
       <==> && raw.Str? && IsDate(raw.s)
            && (config.allowPastDates == Bool(false) ==> !Earlier(raw.s, rt.today))
            && (config.allowFutureDates == Bool(false) ==> !Earlier(rt.today, raw.s))
    ensures NormalValue(rt, Date, config, raw) == Err(PastDate) ==> raw.Str? && Earlier(raw.s, rt.today)
    ensures NormalValue(rt, Date, config, raw) == Err(FutureDate) ==> raw.Str? && Earlier(rt.today, raw.s)
  {
  }

  // The day before is past and the day after is future.
  lemma PastAndFuture(rt: Runtime, past: Config, future: Config, yesterday: string, tomorrow: string, j: nat, k: nat)
    requires IsDate(yesterday) && IsDate(rt.today) && IsDate(tomorrow)
    requires DiffersAt(yesterday, rt.today, j) && DiffersAt(rt.today, tomorrow, k)
    requires past.allowPastDates == Bool(false) && past.allowFutureDates == Bool(true)
    requires future.allowPastDates == Bool(true) && future.allowFutureDates == Bool(false)
    ensures NormalValue(rt, Date, past, Str(yesterday)) == Err(PastDate)
    ensures NormalValue(rt, Date, past, Str(tomorrow)) == Ok(Str(tomorrow))
    ensures NormalValue(rt, Date, future, Str(tomorrow)) == Err(FutureDate)
    ensures NormalValue(rt, Date, future, Str(yesterday)) == Ok(Str(yesterday))
  {
    DayAfter(yesterday, rt.today, j);
    DayAfter(rt.today, tomorrow, k);
  }

  // A text is accepted if and only if it is one, and is no longer, once trimmed, than the limit; a
  // number if and only if it lies within the bounds and is whole where decimals are not allowed.
  lemma AcceptedTextAndNumberIff(rt: Runtime, config: Config, raw: Js)
    ensures NormalValue(rt, TextField, config, raw).Ok?
       <==> raw.Str? && (config.maxLength.Num? ==> |Trim(raw.s)| as real <= config.maxLength.n)
    ensures NormalValue(rt, TextField, config, raw).Ok? ==>
              NormalValue(rt, TextField, config, raw).value == Str(Trim(raw.s))
    ensures NormalValue(rt, LongText, config, raw) == NormalValue(rt, TextField, config, raw)
    ensures NormalValue(rt, Number, config, raw) == Ok(raw)
       <==> && raw.Num? && (config.min.Num? ==> config.min.n <= raw.n) && (config.max.Num? ==> raw.n <= config.max.n)
            && (config.decimalsAllowed == Bool(false) ==> raw.n == raw.n.Floor as real)
  {
  }

  // What a value must be like to be refused with a problem.
  predicate Deserves(problem: Problem, rt: Runtime, fieldType: FieldType, config: Config, raw: Js) {
    match problem
    case NotText => !raw.Str?
    case TooLong => raw.Str? && config.maxLength.Num? && |Trim(raw.s)| as real > config.maxLength.n
    case NotBoolean => !raw.Bool?
    case NotActive =>
      var options := config.options.GetOr([]);
      if fieldType == SingleSelect then raw.Arr? || !HasActive(options, raw)
      else raw.Arr? && exists i :: 0 <= i < |raw.items| && !HasActive(options, raw.items[i])
    case NotAList => !raw.Arr? || exists i :: 0 <= i < |raw.items| && !raw.items[i].Str?
    case TooFew => raw.Arr? && config.minSelected.Num? && |Distinct(raw.items)| as real < config.minSelected.n
    case TooMany => raw.Arr? && config.maxSelected.Num? && |Distinct(raw.items)| as real > config.maxSelected.n
    case NotANumber => !raw.Num?
    case BelowMin => raw.Num? && config.min.Num? && raw.n < config.min.n
    case AboveMax => raw.Num? && config.max.Num? && raw.n > config.max.n
    case NotWhole => raw.Num? && config.decimalsAllowed == Bool(false) && raw.n != raw.n.Floor as real
    case BadDate => !raw.Str? || !IsDate(raw.s)
    case PastDate => raw.Str? && config.allowPastDates == Bool(false) && Earlier(raw.s, rt.today)
    case FutureDate => raw.Str? && config.allowFutureDates == Bool(false) && Earlier(rt.today, raw.s)
    case _ => false
  }

  // A refused value is refused for a reason that is so.
  lemma RefusedForReason(rt: Runtime, fieldType: FieldType, config: Config, raw: Js)
    requires NormalValue(rt, fieldType, config, raw).Err?
    ensures Deserves(NormalValue(rt, fieldType, config, raw).error, rt, fieldType, config, raw)
  {
    if fieldType == MultiSelect && raw.Arr? && AreTexts(raw.items) {
      DistinctIsTheSet(raw.items);
      var chosen, options := Distinct(raw.items), config.options.GetOr([]);
      if i :| 0 <= i < |chosen| && !HasActive(options, chosen[i]) {
        assert chosen[i] in raw.items;
        var k :| 0 <= k < |raw.items| && raw.items[k] == chosen[i];
        assert !HasActive(options, raw.items[k]);
      }
    }
  }

  // A limit is a whole number from 1 to the ceiling of its type.
  predicate GoodLimit(limit: Js, ceiling: int) {
    !Given(limit) || (limit.Num? && limit.n == limit.n.Floor as real && 1.0 <= limit.n <= ceiling as real)
  }

  // A text field is accepted, as it is, if and only if its limit is good and its default, if it has
  // one, is a text within it.
  lemma AcceptedTextConfigIff(rt: Runtime, fieldType: FieldType, config: Config)
    requires fieldType == TextField || fieldType == LongText
    ensures Normal(rt, fieldType, config) == Ok(config)
       <==> && GoodLimit(config.maxLength, if fieldType == TextField then 10_000 else 50_000)
            && (Given(config.defaultValue) ==>
                  config.defaultValue.Str?
                  && (config.maxLength.Num? ==> |config.defaultValue.s| as real <= config.maxLength.n))
    ensures Normal(rt, fieldType, config).Ok? ==> Normal(rt, fieldType, config) == Ok(config)
  {
  }

  // A number field is accepted, with its decimals settled, if and only if its bounds are numbers in
  // order, its unit is short, and its default, if it has one, is an accepted value.
  lemma AcceptedNumberConfigIff(rt: Runtime, config: Config)
    ensures var stored := config.(decimalsAllowed := Bool(config.decimalsAllowed != Bool(false)));
            && (Normal(rt, Number, config) == Ok(stored)
                <==> && (Given(config.min) ==> config.min.Num?) && (Given(config.max) ==> config.max.Num?)
                     && (config.min.Num? && config.max.Num? ==> config.min.n <= config.max.n)
                     && (Given(config.unit) ==> |Shown(rt, config.unit)| <= 32)
                     && (Given(config.defaultValue) ==>
                           NormalValue(rt, Number, stored, config.defaultValue) == Ok(config.defaultValue)))
            && (Normal(rt, Number, config).Ok? ==> Normal(rt, Number, config) == Ok(stored))
  {
  }

  // A yes/no field and a date field likewise: yes_no is the format, and both past and future are
  // allowed, unless said otherwise.
  lemma AcceptedBooleanAndDateConfigIff(rt: Runtime, config: Config)
    ensures Normal(rt, Boolean, config).Ok?
       <==> && (Truthy(config.displayFormat) ==>
                  config.displayFormat == Str("yes_no") || config.displayFormat == Str("true_false"))
            && (Given(config.defaultValue) ==> config.defaultValue.Bool?)
    ensures Normal(rt, Boolean, config).Ok? ==>
              Normal(rt, Boolean, config).value
              == if Truthy(config.displayFormat) then config else config.(displayFormat := Str("yes_no"))
    ensures var stored := config.(allowPastDates := Bool(config.allowPastDates != Bool(false)),
                                  allowFutureDates := Bool(config.allowFutureDates != Bool(false)));
            && (Normal(rt, Date, config) == Ok(stored)
                <==> Given(config.defaultValue) ==>
                       NormalValue(rt, Date, stored, config.defaultValue) == Ok(config.defaultValue))
            && (Normal(rt, Date, config).Ok? ==> Normal(rt, Date, config) == Ok(stored))
  {
  }

  function LabelKey(rt: Runtime, option: FieldOption): string {
    Lower(Label(rt, option))
  }

  // The option an option sent becomes: the same id if it has one, its label without outer space,
  // active unless it was switched off, in the order given or in its place.
  predicate Becomes(rt: Runtime, sent: FieldOption, stored: FieldOption, place: nat) {
    && stored.id == (if Truthy(sent.id) then sent.id else Str(rt.freshId(place)))
    && (sent.title.Str? ==> stored.title == Str(Trim(sent.title.s)))
    && Key(stored) == LabelKey(rt, sent)
    && (stored.active == Bool(false) <==> sent.active == Bool(false))
    && stored.active.Bool?
    && stored.order == if IsInteger(sent.order) then sent.order else Num(place as real)
  }

  lemma AcceptsOneMore(rt: Runtime, options: seq<FieldOption>)
    requires options != []
    ensures var front, last := NormalOptions(rt, options[..|options| - 1]), options[|options| - 1];
            && (NormalOptions(rt, options).Ok?
                <==> front.Ok? && Label(rt, last) != "" && !HasKey(front.value, LabelKey(rt, last)))
            && (NormalOptions(rt, options).Ok? ==>
                  NormalOptions(rt, options).value == front.value + [NormalOption(rt, last, |options| - 1)])
  {
  }

  lemma NormalBecomes(rt: Runtime, option: FieldOption, place: nat)
    ensures Becomes(rt, option, NormalOption(rt, option, place), place)
  {
  }

  lemma FrontAccepted(rt: Runtime, options: seq<FieldOption>)
    requires NormalOptions(rt, options).Ok? && options != []
    ensures NormalOptions(rt, options[..|options| - 1]) == Ok(NormalOptions(rt, options).value[..|options| - 1])
  {
    AcceptsOneMore(rt, options);
  }

  lemma {:induction false} FirstAccepted(rt: Runtime, options: seq<FieldOption>, k: nat)
    requires NormalOptions(rt, options).Ok? && k <= |options|
    ensures NormalOptions(rt, options[..k]) == Ok(NormalOptions(rt, options).value[..k])
    decreases |options|
  {
    var stored := NormalOptions(rt, options).value;
    if k == |options| {
      assert options[..k] == options && stored[..k] == stored;
    } else {
      FrontAccepted(rt, options);
      FirstAccepted(rt, options[..|options| - 1], k);
      SameFirst(options, |options| - 1, k);
      SameFirst(stored, |options| - 1, k);
    }
  }

  lemma SameFirst<T>(s: seq<T>, n: nat, k: nat)
    requires k <= n <= |s|
    ensures s[..n][..k] == s[..k]
  {
  }

  // Option by option, it is the one sent at that place.
  lemma StoredFrom(rt: Runtime, options: seq<FieldOption>, i: nat)
    requires NormalOptions(rt, options).Ok? && i < |options|
    ensures NormalOptions(rt, options).value[i] == NormalOption(rt, options[i], i)
  {
    FirstAccepted(rt, options, i + 1);
    LastIs(rt, options[..i + 1]);
    assert options[..i + 1][i] == options[i];
  }

  lemma LastIs(rt: Runtime, options: seq<FieldOption>)
    requires NormalOptions(rt, options).Ok? && options != []
    ensures var last := |options| - 1; NormalOptions(rt, options).value[last] == NormalOption(rt, options[last], last)
  {
    AcceptsOneMore(rt, options);
  }

  lemma OptionsBecome(rt: Runtime, options: seq<FieldOption>)
    requires NormalOptions(rt, options).Ok?
    ensures forall i :: 0 <= i < |options| ==> Becomes(rt, options[i], NormalOptions(rt, options).value[i], i)
  {
    forall i | 0 <= i < |options|
      ensures Becomes(rt, options[i], NormalOptions(rt, options).value[i], i)
    {
      StoredFrom(rt, options, i);
      NormalBecomes(rt, options[i], i);
    }
  }

  predicate GoodSelection(rt: Runtime, fieldType: FieldType, config: Config, options: seq<FieldOption>) {
    if fieldType == SingleSelect then
      Given(config.defaultOptionId) ==> HasActive(options, Str(Shown(rt, config.defaultOptionId)))
    else
      && GoodBounds(config.minSelected, config.maxSelected)
      && (config.maxSelected.Num? ==> config.maxSelected.n <= |options| as real)
      && (Given(config.defaultOptionIds) ==> AllActive(rt, config.defaultOptionIds, options))
  }

  lemma SelectionCheckedIff(rt: Runtime, fieldType: FieldType, config: Config, options: seq<FieldOption>)
    ensures CheckSelected(rt, fieldType, config, options).None? <==> GoodSelection(rt, fieldType, config, options)
  {
  }

  // A select is accepted if and only if it has options, all of them with labels of their own, its
  // bounds are whole numbers in order, the upper one no more than there are options, and its default
  // options are active; and then its options alone are stored otherwise than sent.
  lemma AcceptedSelectConfigIff(rt: Runtime, fieldType: FieldType, config: Config)
    requires IsSelect(fieldType)
    ensures Normal(rt, fieldType, config).Ok?
       <==> && config.options.GetOr([]) != [] && NormalOptions(rt, config.options.value).Ok?
            && GoodSelection(rt, fieldType, config, NormalOptions(rt, config.options.value).value)
    ensures Normal(rt, fieldType, config).Ok? ==>
              Normal(rt, fieldType, config).value
              == config.(options := Some(NormalOptions(rt, config.options.value).value))
  {
    NormalOfSelect(rt, fieldType, config);
    if config.options.GetOr([]) != [] && NormalOptions(rt, config.options.value).Ok? {
      SelectionCheckedIff(rt, fieldType, config, NormalOptions(rt, config.options.value).value);
    }
  }

  lemma NormalOfSelect(rt: Runtime, fieldType: FieldType, config: Config)
    requires IsSelect(fieldType)
    ensures Normal(rt, fieldType, config)
         == if config.options.GetOr([]) == [] then Err(NoOptions)
            else
              var options := NormalOptions(rt, config.options.value);
              if options.Err? then Err(options.error)
              else Passing(CheckSelected(rt, fieldType, config, options.value), config.(options := Some(options.value)))
  {
    assert Normal(rt, fieldType, config) == NormalSelect(rt, fieldType, config);
  }

  predicate Labelled(rt: Runtime, options: seq<FieldOption>, key: string) {
    exists i :: 0 <= i < |options| && LabelKey(rt, options[i]) == key
  }

  lemma LabelledIff(rt: Runtime, options: seq<FieldOption>, key: string)
    requires NormalOptions(rt, options).Ok?
    ensures HasKey(NormalOptions(rt, options).value, key) <==> Labelled(rt, options, key)
  {
    var stored := NormalOptions(rt, options).value;
    OptionsBecome(rt, options);
    assert forall i :: 0 <= i < |options| ==> Key(stored[i]) == LabelKey(rt, options[i]);
  }

  // None is blank and none is that of an option before it, ignoring case.
  predicate GoodLabels(rt: Runtime, options: seq<FieldOption>) {
    forall i :: 0 <= i < |options| ==> GoodLabelAt(rt, options, i)
  }

  predicate GoodLabelAt(rt: Runtime, options: seq<FieldOption>, i: nat)
    requires i < |options|
  {
    Label(rt, options[i]) != "" && !Labelled(rt, options[..i], LabelKey(rt, options[i]))
  }

  lemma GoodLabelsOfMore(rt: Runtime, front: seq<FieldOption>, option: FieldOption)
    ensures GoodLabels(rt, front + [option]) <==> GoodLabels(rt, front) && GoodLabelAt(rt, front + [option], |front|)
  {
    var all := front + [option];
    forall i | 0 <= i < |front|
      ensures GoodLabelAt(rt, all, i) == GoodLabelAt(rt, front, i)
    {
      assert all[..|front|] == front && all[i] == front[i];
      SameFirst(all, |front|, i);
    }
  }

  lemma LabelStep(rt: Runtime, front: seq<FieldOption>, last: FieldOption)
    ensures NormalOptions(rt, front + [last]).Ok?
       <==> NormalOptions(rt, front).Ok? && GoodLabelAt(rt, front + [last], |front|)
  {
    AcceptsOneMore(rt, front + [last]);
    assert (front + [last])[..|front|] == front;
    if NormalOptions(rt, front).Ok? {
      LabelledIff(rt, front, LabelKey(rt, last));
    }
  }

  lemma NoOptionsAccepted(rt: Runtime)
    ensures NormalOptions(rt, []).Ok? && GoodLabels(rt, [])
  {
  }

  // Options are accepted if and only if their labels are good.
  lemma {:induction false} LabelsAcceptedIff(rt: Runtime, options: seq<FieldOption>)
    ensures NormalOptions(rt, options).Ok? <==> GoodLabels(rt, options)
  {
    if options == [] {
      NoOptionsAccepted(rt);
    } else {
      var front, last := options[..|options| - 1], options[|options| - 1];
      assert options == front + [last];
      LabelsAcceptedIff(rt, front);
      LabelStep(rt, front, last);
      GoodLabelsOfMore(rt, front, last);
    }
  }

  // ---------------------------------------------------------------------------------------
  // Configurations no value can meet
  // ---------------------------------------------------------------------------------------

  // The active options a multi-select can name, in option order.
  function ActiveTexts(options: seq<FieldOption>): seq<Js> {
    if options == [] then []
    else
      var last := options[|options| - 1];
      ActiveTexts(options[..|options| - 1]) + if Truthy(last.active) && last.id.Str? then [last.id] else []
  }

  lemma {:induction false} ActiveTextsAre(options: seq<FieldOption>, id: Js)
    ensures id in ActiveTexts(options) <==> id.Str? && HasActive(options, id)
  {
    if options != [] {
      var front := options[..|options| - 1];
      ActiveTextsAre(front, id);
      assert forall i :: 0 <= i < |front| ==> front[i] == options[i];
    }
  }

  lemma AcceptedIsActive(config: Config, items: seq<Js>)
    requires AreTexts(items) && NormalSelection(config, items).Ok?
    ensures |Distinct(items)| <= |Distinct(ActiveTexts(config.options.GetOr([])))|
  {
    var chosen, ids := Distinct(items), Distinct(ActiveTexts(config.options.GetOr([])));
    DistinctIsTheSet(items);
    DistinctIsTheSet(ActiveTexts(config.options.GetOr([])));
    forall x | x in chosen
      ensures x in ids
    {
      ActiveTextsAre(config.options.GetOr([]), x);
    }
    NoLonger(chosen, ids);
  }

  // The first `m` of the active options, as a selection.
  lemma FirstOptionsAccepted(config: Config, m: nat)
    requires m <= |Distinct(ActiveTexts(config.options.GetOr([])))|
    requires !Below(m as real, config.minSelected) && !Above(m as real, config.maxSelected)
    ensures var items := Distinct(ActiveTexts(config.options.GetOr([])))[..m];
            AreTexts(items) && NormalSelection(config, items).Ok?
  {
    var ids := Distinct(ActiveTexts(config.options.GetOr([])));
    DistinctIsTheSet(ActiveTexts(config.options.GetOr([])));
    DistinctOfDistinct(ids[..m]);
    forall i | 0 <= i < m
      ensures ids[..m][i].Str? && HasActive(config.options.GetOr([]), ids[..m][i])
    {
      assert ids[i] in ids;
      ActiveTextsAre(config.options.GetOr([]), ids[i]);
    }
  }

  function Fewest(config: Config): nat {
    if config.minSelected.Num? && config.minSelected.n >= 0.0 then config.minSelected.n.Floor else 0
  }

  // What is known of the bounds once the configuration is accepted.
  predicate GoodBounds(min: Js, max: Js) {
    && (Given(min) ==> IsInteger(min) && min.n >= 0.0)
    && (Given(max) ==> IsInteger(max) && max.n >= 1.0)
    && (min.Num? && max.Num? ==> min.n <= max.n)
  }

  lemma AcceptedBounds(rt: Runtime, config: Config)
    requires Normal(rt, MultiSelect, config).Ok?
    ensures var stored := Normal(rt, MultiSelect, config).value;
            GoodBounds(stored.minSelected, stored.maxSelected)
  {
    var stored := Normal(rt, MultiSelect, config).value;
    assert stored.minSelected == config.minSelected && stored.maxSelected == config.maxSelected;
    assert CheckSelected(rt, MultiSelect, config, stored.options.value).None?;
  }

  // The fewest allowed are not too many.
  lemma FewestFits(config: Config, k: nat)
    requires GoodBounds(config.minSelected, config.maxSelected)
    ensures !Below(Fewest(config) as real, config.minSelected) && !Above(Fewest(config) as real, config.maxSelected)
    ensures Below(k as real, config.minSelected) <==> k < Fewest(config)
  {
  }

  // An accepted multi-select can be given some value if and only if its minSelected is no more
  // than its distinct active options, which accepting it does not check.
  lemma SomeSelectionIff(rt: Runtime, config: Config)
    requires Normal(rt, MultiSelect, config).Ok?
    ensures var stored := Normal(rt, MultiSelect, config).value;
            (exists items :: NormalValue(rt, MultiSelect, stored, Arr(items)).Ok?)
            <==> !Below(|Distinct(ActiveTexts(stored.options.GetOr([])))| as real, stored.minSelected)
  {
    var stored := Normal(rt, MultiSelect, config).value;
    var ids := Distinct(ActiveTexts(stored.options.GetOr([])));
    AcceptedBounds(rt, config);
    FewestFits(stored, |ids|);
    if items :| NormalValue(rt, MultiSelect, stored, Arr(items)).Ok? {
      AcceptedIsActive(stored, items);
    }
    if Fewest(stored) <= |ids| {
      FirstOptionsAccepted(stored, Fewest(stored));
      assert NormalValue(rt, MultiSelect, stored, Arr(ids[..Fewest(stored)])).Ok?;
    }
  }

  function Ceiling(x: real): int {
    -((-x).Floor)
  }

  // An accepted number field can be given some value if and only if it takes decimals or some
  // whole number lies within its bounds, which accepting it does not check either.
  lemma SomeNumberIff(rt: Runtime, config: Config)
    requires Normal(rt, Number, config).Ok?
    ensures var stored := Normal(rt, Number, config).value;
            (exists x: real :: NormalValue(rt, Number, stored, Num(x)).Ok?)
            <==> stored.decimalsAllowed == Bool(true)
                 || (stored.min.Num? && stored.max.Num? ==> Ceiling(stored.min.n) as real <= stored.max.n)
  {
    var stored := Normal(rt, Number, config).value;
    if x: real :| NormalValue(rt, Number, stored, Num(x)).Ok? {
      if stored.decimalsAllowed == Bool(false) && stored.min.Num? && stored.max.Num? {
        assert x == x.Floor as real && Ceiling(stored.min.n) <= x.Floor;
      }
    }
    var whole := if stored.min.Num? then Ceiling(stored.min.n) as real
                 else if stored.max.Num? then stored.max.n.Floor as real else 0.0;
    var any := if stored.min.Num? then stored.min.n else if stored.max.Num? then stored.max.n else 0.0;
    assert whole == whole.Floor as real;
    assert stored.decimalsAllowed == Bool(true) ==> NormalValue(rt, Number, stored, Num(any)).Ok?;
    assert (stored.min.Num? && stored.max.Num? ==> whole <= stored.max.n) ==>
             NormalValue(rt, Number, stored, Num(whole)).Ok?;
  }

  // Three of two options are asked for.
  const TOO_MANY_ASKED := BARE.(options := Some(TWO_OPTIONS), minSelected := Num(3.0))

  lemma TooManyChecked(rt: Runtime)
    ensures CheckSelected(rt, MultiSelect, TOO_MANY_ASKED, TWO_OPTIONS) == None
  {
    assert IsInteger(Num(3.0));
  }

  lemma TooManyAskedAccepted(rt: Runtime)
    ensures Normal(rt, MultiSelect, TOO_MANY_ASKED) == Ok(TOO_MANY_ASKED)
  {
    TwoOptionsAreNormal(rt);
    TooManyChecked(rt);
  }

  lemma AtMostTwoActive()
    ensures |Distinct(ActiveTexts(TWO_OPTIONS))| <= 2
  {
    assert ActiveTexts(TWO_OPTIONS[..1][..0]) == [];
    assert ActiveTexts(TWO_OPTIONS[..1]) == [Str("a")];
    assert |ActiveTexts(TWO_OPTIONS)| == 2;
    DistinctIsTheSet(ActiveTexts(TWO_OPTIONS));
  }

  lemma NoSelectionMeets(rt: Runtime, raw: Js)
    ensures Normal(rt, MultiSelect, TOO_MANY_ASKED) == Ok(TOO_MANY_ASKED)
    ensures NormalValue(rt, MultiSelect, TOO_MANY_ASKED, raw).Err?
  {
    TooManyAskedAccepted(rt);
    SomeSelectionIff(rt, TOO_MANY_ASKED);
    AtMostTwoActive();
    assert TOO_MANY_ASKED.minSelected == Num(3.0) && TOO_MANY_ASKED.options.GetOr([]) == TWO_OPTIONS;
    if raw.Arr? {
      assert !NormalValue(rt, MultiSelect, TOO_MANY_ASKED, Arr(raw.items)).Ok?;
    }
  }

  // No whole number lies between 0.2 and 0.8.
  const NO_WHOLE_NUMBER := BARE.(min := Num(0.2), max := Num(0.8), decimalsAllowed := Bool(false))

  lemma NoNumberMeets(rt: Runtime, raw: Js)
    ensures Normal(rt, Number, NO_WHOLE_NUMBER) == Ok(NO_WHOLE_NUMBER)
    ensures NormalValue(rt, Number, NO_WHOLE_NUMBER, raw).Err?
  {
    SomeNumberIff(rt, NO_WHOLE_NUMBER);
    assert Ceiling(0.2) == 1;
  }
}
