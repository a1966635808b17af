/**
 * Reading the settings from the process environment: required and
 * defaulted strings, numbers and lists of ids. The environment is a map
 * from variable name to value; a variable that is not set is not a key.
 * A thrown error becomes a `Failure` carrying its message.
 */
module Config {
  import opened Wrappers
  import opened Text
  import opened Numbers

  type Env = map<string, string>

  function Required(key: string): string {
    "Environment variable " + key + " is required but not set"
  }

  /** `process.env[key] || defaultValue`: a variable set to the empty string counts as not set. */
  function EnvOr(env: Env, key: string, default: Option<string>): Option<string> {
    if key in env && env[key] != "" then Some(env[key]) else default
  }

  /** `getEnv`: the value if set and not empty, else the default; an error when there is neither. */
  function GetEnv(env: Env, key: string, default: Option<string>): Result<string> {
    var value := EnvOr(env, key, default);
    if value.None? then Failure(Required(key)) else Success(value.value)
  }

  /**
   * `getEnv` fails exactly when the variable is unset or empty and there is
   * no default; a non-empty value wins over the default; an empty default
   * is a value like any other.
   */
  lemma GetEnvSpec(env: Env, key: string, default: Option<string>)
    ensures GetEnv(env, key, default).Failure? <==> (key !in env || env[key] == "") && default.None?
    ensures GetEnv(env, key, default).Failure? ==> GetEnv(env, key, default).error == Required(key)
    ensures key in env && env[key] != "" ==> GetEnv(env, key, default) == Success(env[key])
    ensures (key !in env || env[key] == "") && default.Some? ==> GetEnv(env, key, default) == Success(default.value)
  {}

  /** `getEnvNumber`: an unset variable gives the default or an error; a set one must start with an integer. */
  function GetEnvNumber(env: Env, key: string, default: Option<int>): Result<int> {
    if key !in env then
      (if default.Some? then Success(default.value) else Failure(Required(key)))
    else
      var num := ParseInt(env[key]);
      if num.None? then Failure("Environment variable " + key + " must be a number") else Success(num.value)
  }

  /**
   * An unset variable gives the default; a set one is read as `parseInt`
   * reads it, whatever the default; and a set variable with no leading
   * integer is an error even when there is a default.
   */
  lemma GetEnvNumberSpec(env: Env, key: string, default: Option<int>)
    ensures key !in env ==> GetEnvNumber(env, key, default) == (if default.Some? then Success(default.value) else Failure(Required(key)))
    ensures key in env ==> (GetEnvNumber(env, key, default).Success? <==> ParseInt(env[key]).Some?)
    ensures key in env && ParseInt(env[key]).Some? ==> GetEnvNumber(env, key, default) == Success(ParseInt(env[key]).value)
  {}

  /** A variable holding a number's decimal digits reads back as that number. */
  lemma GetEnvNumberRoundTrip(env: Env, key: string, n: nat, default: Option<int>)
    ensures GetEnvNumber(env[key := NatToString(n)], key, default) == Success(n)
  {
    ParseIntOfNatToString(n);
  }

  /** Unlike `getEnv`, an empty number variable is not replaced by the default: it is an error. */
  lemma EmptyNumberFails(env: Env, key: string, default: Option<int>)
    ensures GetEnvNumber(env[key := ""], key, default).Failure?
    ensures GetEnv(env[key := ""], key, Some("0")) == Success("0")
  {}

  /**
   * `Number(s)` for the strings a list of default ids can hold: blank is
   * zero, an optionally signed run of digits is its value, anything else
   * is `NaN` (`None`).
   */
  function NumberOf(s: string): Option<int> {
    var t := Trim(s);
    if t == "" then Some(0)
    else
      var sign := t[0] == '-' || t[0] == '+';
      var digits := if sign then t[1..] else t;
      if |digits| > 0 && AllDigits(digits) then
        var v: int := DigitsValue(digits);
        Some(if t[0] == '-' then -v else v)
      else None
  }

  /** `.map(id => parseInt(id.trim(), 10)).filter(id => !isNaN(id))`. */
  function ParsedIds(parts: seq<string>): seq<int> {
    if |parts| == 0 then []
    else
      var id := ParseInt(Trim(parts[0]));
      (if id.Some? then [id.value] else []) + ParsedIds(parts[1..])
  }

  /** The ids read are, in order, the leading integers of the entries that have one. */
  lemma {:induction false} ParsedIdsSpec(parts: seq<string>)
    ensures |ParsedIds(parts)| == |NumericParts(parts)|
    ensures forall k :: 0 <= k < |ParsedIds(parts)| ==> ParseInt(Trim(NumericParts(parts)[k])) == Some(ParsedIds(parts)[k])
    decreases |parts|
  {
    if |parts| > 0 {
      ParsedIdsSpec(parts[1..]);
    }
  }

  /** The entries that start with an integer, in order. */
  function NumericParts(parts: seq<string>): (r: seq<string>)
    ensures forall p :: p in r <==> p in parts && ParseInt(Trim(p)).Some?
  {
    if |parts| == 0 then []
    else (if ParseInt(Trim(parts[0])).Some? then [parts[0]] else []) + NumericParts(parts[1..])
  }

  /**
   * `getEnvArray`: an unset or empty variable gives the defaults as
   * numbers (a default that is not a number gives `NaN`, `None`); otherwise
   * the comma-separated entries that start with an integer.
   */
  function GetEnvArray(env: Env, key: string, defaults: seq<string>): seq<Option<int>> {
    if key !in env || env[key] == "" then seq(|defaults|, i requires 0 <= i < |defaults| => NumberOf(defaults[i]))
    else
      var ids := ParsedIds(Split(env[key], ','));
      seq(|ids|, i requires 0 <= i < |ids| => Some(ids[i]))
  }

  /** The ids read from a set list, as `number`s. */
  lemma IdsFromParts(parts: seq<string>)
    ensures var ids := ParsedIds(parts);
      forall x :: x in seq(|ids|, i requires 0 <= i < |ids| => Some(ids[i])) ==>
        x.Some? && exists p :: p in parts && ParseInt(Trim(p)) == x
  {
    ParsedIdsSpec(parts);
    var ids := ParsedIds(parts);
    var arr := seq(|ids|, i requires 0 <= i < |ids| => Some(ids[i]));
    forall x | x in arr
      ensures x.Some? && exists p :: p in parts && ParseInt(Trim(p)) == x
    {
      var k :| 0 <= k < |arr| && arr[k] == x;
      var p := NumericParts(parts)[k];
      assert p in NumericParts(parts);
    }
  }

  /** A set list never holds `NaN`: each id is the leading integer of one of its comma-separated entries. */
  lemma GetEnvArraySpec(env: Env, key: string, defaults: seq<string>)
    ensures key !in env || env[key] == "" ==> |GetEnvArray(env, key, defaults)| == |defaults|
    ensures key !in env || env[key] == "" ==>
      forall i :: 0 <= i < |defaults| ==> GetEnvArray(env, key, defaults)[i] == NumberOf(defaults[i])
    ensures key in env && env[key] != "" ==> forall x :: x in GetEnvArray(env, key, defaults) ==>
      x.Some? && exists p :: p in Split(env[key], ',') && ParseInt(Trim(p)) == x
  {
    if key in env && env[key] != "" {
      IdsFromParts(Split(env[key], ','));
    }
  }

  /** `api.enabled`: exactly the value `true`, which is also what an unset or empty variable means. */
  function ApiEnabled(env: Env): bool {
    GetEnv(env, "API_ENABLED", Some("true")) == Success("true")
  }

  lemma ApiEnabledSpec(env: Env)
    ensures ApiEnabled(env) <==> "API_ENABLED" !in env || env["API_ENABLED"] in {"", "true"}
  {}

  /** The numeric and boolean settings of `config`. */
  datatype Settings = Settings(
    adminIds: seq<Option<int>>, defaultManagerId: int, reminderDay: int, deadlineDay: int,
    apiEnabled: bool, apiPort: int)

  /** The settings in the order `config` reads them; the first variable that cannot be read is the error. */
  function LoadSettings(env: Env): Result<Settings> {
    var manager := GetEnvNumber(env, "DEFAULT_MANAGER_ID", Some(0));
    var reminder := GetEnvNumber(env, "REPORT_REMINDER_DAY", Some(5));
    var deadline := GetEnvNumber(env, "REPORT_DEADLINE_DAY", Some(5));
    var port := GetEnvNumber(env, "API_PORT", Some(3000));
    if manager.Failure? then Failure(manager.error)
    else if reminder.Failure? then Failure(reminder.error)
    else if deadline.Failure? then Failure(deadline.error)
    else if port.Failure? then Failure(port.error)
    else Success(Settings(GetEnvArray(env, "ADMIN_IDS", []), manager.value, reminder.value, deadline.value,
      ApiEnabled(env), port.value))
  }

  /** With nothing set, every setting has its default: no admins, manager 0, Friday twice, the API on port 3000. */
  lemma DefaultSettings()
    ensures LoadSettings(map[]) == Success(Settings([], 0, 5, 5, true, 3000))
  {
    assert GetEnvArray(map[], "ADMIN_IDS", []) == [];
    assert ApiEnabled(map[]);
  }

  /** The settings load exactly when each numeric variable is unset or starts with an integer. */
  lemma LoadSettingsSpec(env: Env)
    ensures LoadSettings(env).Success? <==>
      forall key :: key in ["DEFAULT_MANAGER_ID", "REPORT_REMINDER_DAY", "REPORT_DEADLINE_DAY", "API_PORT"] ==>
        key !in env || ParseInt(env[key]).Some?
  {}
}
