/** The two validators of the acceptance configuration: `get_option_value`,
    which picks a setting from the options file, the environment or a
    default and checks it against a list of legal symbols, and
    `get_package_version`, which derives the expected package version from
    the platform name. The environment and the configuration hash are
    parameters. */
module TestConfig {
  import opened Wrappers

  /** A Ruby symbol; `to_sym` turns a string or a symbol into one. */
  datatype Symbol = Symbol(name: string)

  datatype ConfigError =
    | UnsupportedValue(description: string, value: Option<Symbol>)   // "Unsupported <description> '<value>'"
    | UnsupportedPlatform(platform: string)                          // "Unsupported platform: '<platform>'"

  predicate OccursAt(s: string, part: string, i: nat) {
    i + |part| <= |s| && s[i..i + |part|] == part
  }

  /** `s.include?(part)`. */
  predicate Contains(s: string, part: string) {
    exists i: nat | i <= |s| :: OccursAt(s, part, i)
  }

  /** What `"#{x}"` gives for a value that is a symbol or `nil`. */
  function Interpolate(x: Option<Symbol>): string {
    if x.None? then "" else x.value.name
  }

  // ---------------------------------------------------------------------------
  // get_option_value
  // ---------------------------------------------------------------------------

  /** `value || (env_var_name && ENV[env_var_name]) || default_value`: the
      first of the three that is set. Option values are strings or symbols,
      never `false`, so only `nil` falls through. */
  function ChosenSetting(value: Option<string>, envVarName: Option<string>, env: map<string, string>,
                         defaultValue: Option<string>): (r: Option<string>)
    ensures value.Some? ==> r == value
    ensures value.None? && envVarName.Some? && envVarName.value in env ==> r == Some(env[envVarName.value])
    ensures value.None? && (envVarName.None? || envVarName.value !in env) ==> r == defaultValue
  {
    if value.Some? then value
    else if envVarName.Some? && envVarName.value in env then Some(env[envVarName.value])
    else defaultValue
  }

  /** `get_option_value`: the chosen setting as a symbol, or `ArgumentError`
      when a legal list is given and does not contain it (a missing setting
      is never in a list of symbols). */
  function GetOptionValue(value: Option<string>, legalValues: Option<seq<Symbol>>, description: string,
                          envVarName: Option<string>, env: map<string, string>,
                          defaultValue: Option<string>): (r: Result<Option<Symbol>, ConfigError>)
    ensures var chosen := ChosenSetting(value, envVarName, env, defaultValue);
            var sym := if chosen.None? then None else Some(Symbol(chosen.value));
            && (r.Ok? <==> legalValues.None? || (sym.Some? && sym.value in legalValues.value))
            && (r.Ok? ==> r.value == sym)
            && (r.Err? ==> r.error == UnsupportedValue(description, sym))
  {
    var chosen := ChosenSetting(value, envVarName, env, defaultValue);
    var sym := if chosen.Some? then Some(Symbol(chosen.value)) else None;
    if legalValues.None? then Ok(sym)
    else if sym.Some? && sym.value in legalValues.value then Ok(sym)
    else Err(UnsupportedValue(description, sym))
  }

  /** Feeding an accepted value back in as the explicit option gives it back
      unchanged, whatever the environment and the default say: `to_sym` is
      idempotent and the explicit option wins. */
  lemma OptionValueStable(value: Option<string>, legalValues: Option<seq<Symbol>>, description: string,
                          envVarName: Option<string>, env: map<string, string>, defaultValue: Option<string>,
                          envVarName': Option<string>, env': map<string, string>, defaultValue': Option<string>)
    requires GetOptionValue(value, legalValues, description, envVarName, env, defaultValue).Ok?
    requires GetOptionValue(value, legalValues, description, envVarName, env, defaultValue).value.Some?
    ensures var s := GetOptionValue(value, legalValues, description, envVarName, env, defaultValue).value.value;
            GetOptionValue(Some(s.name), legalValues, description, envVarName', env', defaultValue') == Ok(Some(s))
  {
  }

  /** Without a legal list every setting is accepted, including a missing one. */
  lemma UnrestrictedOptionAccepted(value: Option<string>, description: string, envVarName: Option<string>,
                                   env: map<string, string>, defaultValue: Option<string>)
    ensures GetOptionValue(value, None, description, envVarName, env, defaultValue).Ok?
  {
  }

  // ---------------------------------------------------------------------------
  // get_package_version
  // ---------------------------------------------------------------------------

  const El5: string := "el-5"
  const El6: string := "el-6"
  const Ubuntu: string := "ubuntu"
  const Debian: string := "debian"

  /** `get_package_version`: an explicit version is returned as given;
      otherwise the platform name decides between the RPM version with an
      `.el5` or `.el6` suffix and the DEB version, trying `el-5`, `el-6`,
      then `ubuntu` or `debian`; any other platform is an `ArgumentError`. */
  function GetPackageVersion(platform: string, version: Option<string>,
                             expectedRpmVersion: Option<Symbol>, expectedDebVersion: Option<Symbol>)
    : (r: Result<string, ConfigError>)
    ensures version.Some? ==> r == Ok(version.value)
    ensures r.Err? <==>
              version.None? && !Contains(platform, El5) && !Contains(platform, El6) &&
              !Contains(platform, Ubuntu) && !Contains(platform, Debian)
    ensures r.Err? ==> r.error == UnsupportedPlatform(platform)
    ensures version.None? && Contains(platform, El5) ==> r == Ok(Interpolate(expectedRpmVersion) + ".el5")
    ensures version.None? && !Contains(platform, El5) && Contains(platform, El6) ==>
              r == Ok(Interpolate(expectedRpmVersion) + ".el6")
    ensures version.None? && !Contains(platform, El5) && !Contains(platform, El6) &&
            (Contains(platform, Ubuntu) || Contains(platform, Debian)) ==>
              r == Ok(Interpolate(expectedDebVersion))
  {
    if version.Some? then Ok(version.value)
    else if Contains(platform, El5) then Ok(Interpolate(expectedRpmVersion) + ".el5")
    else if Contains(platform, El6) then Ok(Interpolate(expectedRpmVersion) + ".el6")
    else if Contains(platform, Ubuntu) || Contains(platform, Debian) then Ok(Interpolate(expectedDebVersion))
    else Err(UnsupportedPlatform(platform))
  }

  /** `el-5` is tried first: a platform named `el-5…` derives its version
      from the RPM version with the `.el5` suffix, whatever follows. */
  lemma El5Platforms(rest: string, rpm: Option<Symbol>, deb: Option<Symbol>)
    ensures GetPackageVersion(El5 + rest, None, rpm, deb) == Ok(Interpolate(rpm) + ".el5")
  {
    assert OccursAt(El5 + rest, El5, 0);
  }

  /** A platform name without the letter `l` (such as `debian-7-amd64` or
      `ubuntu-1204-i386`) is never a Red Hat platform: it resolves to the
      DEB version when it names Ubuntu or Debian, and fails otherwise. */
  lemma {:induction false} NonRedHatPlatforms(platform: string, rpm: Option<Symbol>, deb: Option<Symbol>)
    requires 'l' !in platform
    ensures GetPackageVersion(platform, None, rpm, deb) ==
              if Contains(platform, Ubuntu) || Contains(platform, Debian) then Ok(Interpolate(deb))
              else Err(UnsupportedPlatform(platform))
  {
    forall part, i: nat | (part == El5 || part == El6) && i + |part| <= |platform|
      ensures !OccursAt(platform, part, i)
    {
      assert platform[i..i + |part|][1] == platform[i + 1] != 'l';
    }
  }
}
