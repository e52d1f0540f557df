/**
 Configuration: the settings one save works with, and the timestamp formatter.

 Every setting is optional; an unset setting takes the extension's default. Patterns
 are kept as their source text and compiled by the regular-expression engine when a
 line is searched. Date formatting belongs to a library outside the model: a
 `Formatter` supplies the token-format rendering and the ISO-8601 rendering of an
 instant, and the model only decides which of the two is used.
 */
module Configuration {
  import opened Matching

  /** Milliseconds since the epoch. */
  type Instant = int

  datatype Formatter = Formatter(toFormat: (Instant, string) -> string, toIso: Instant -> string)

  /** An instant rendered with a token format, or in ISO-8601 when the format is empty. */
  function Render(f: Formatter, t: Instant, format: string): string {
    if format != "" then f.toFormat(t, format) else f.toIso(t)
  }

  /** The settings as stored: any of them may be unset. */
  datatype Settings = Settings(
    filenamePattern: Option<string>,
    lineLimit: Option<int>,
    birthTimeStart: Option<string>,
    birthTimeEnd: Option<string>,
    modifiedTimeStart: Option<string>,
    modifiedTimeEnd: Option<string>,
    luxonFormat: Option<string>,
    suffix: Option<string>,
    texPlaceholder: Option<string>,
    texFormat: Option<string>)

  /** The settings in effect for one save, every one of them resolved to a value. */
  datatype Config = Config(
    fileNamePattern: string,
    lineLimit: int,
    birthTimeStart: string,
    birthTimeEnd: string,
    modifiedTimeStart: string,
    modifiedTimeEnd: string,
    luxonFormat: string,
    tsSuffix: string,
    texPlaceholder: string,
    texFormat: string)

  function Unset(): Settings {
    Settings(None, None, None, None, None, None, None, None, None, None)
  }

  /** The extension's defaults; the suffix names the user the editor runs as. */
  function Defaults(user: string): Config {
    Config(
      ".*",
      5,
      "[cC]reated *: ",
      "$",
      "[lL]ast[ -][mM]odified *: ",
      "$",
      "yyyy/MM/dd HH:mm:ss",
      " by " + user,
      "XXX-DATE-WHEN-CREATED-XXX",
      "'\\DTMdate{'yyyy-MM-dd'}'")
  }

  /** A stored value, or the default when it is unset. */
  function GetValue<T>(stored: Option<T>, default: T): T {
    if stored.Some? then stored.value else default
  }

  /**
   The settings in effect: each stored value wins over its default, each unset one falls back
   to it, and nothing is taken from any other setting.
   */
  function Resolve(s: Settings, user: string): (c: Config)
    ensures s == Unset() ==> c == Defaults(user)
    ensures s.filenamePattern.Some? ==> c.fileNamePattern == s.filenamePattern.value
    ensures s.filenamePattern.None? ==> c.fileNamePattern == ".*"
    ensures s.lineLimit.Some? ==> c.lineLimit == s.lineLimit.value
    ensures s.lineLimit.None? ==> c.lineLimit == 5
    ensures s.birthTimeStart.Some? ==> c.birthTimeStart == s.birthTimeStart.value
    ensures s.birthTimeStart.None? ==> c.birthTimeStart == "[cC]reated *: "
    ensures s.birthTimeEnd.Some? ==> c.birthTimeEnd == s.birthTimeEnd.value
    ensures s.birthTimeEnd.None? ==> c.birthTimeEnd == "$"
    ensures s.modifiedTimeStart.Some? ==> c.modifiedTimeStart == s.modifiedTimeStart.value
    ensures s.modifiedTimeStart.None? ==> c.modifiedTimeStart == "[lL]ast[ -][mM]odified *: "
    ensures s.modifiedTimeEnd.Some? ==> c.modifiedTimeEnd == s.modifiedTimeEnd.value
    ensures s.modifiedTimeEnd.None? ==> c.modifiedTimeEnd == "$"
    ensures s.luxonFormat.Some? ==> c.luxonFormat == s.luxonFormat.value
    ensures s.luxonFormat.None? ==> c.luxonFormat == "yyyy/MM/dd HH:mm:ss"
    ensures s.suffix.Some? ==> c.tsSuffix == s.suffix.value
    ensures s.suffix.None? ==> c.tsSuffix == " by " + user
    ensures s.texPlaceholder.Some? ==> c.texPlaceholder == s.texPlaceholder.value
    ensures s.texPlaceholder.None? ==> c.texPlaceholder == "XXX-DATE-WHEN-CREATED-XXX"
    ensures s.texFormat.Some? ==> c.texFormat == s.texFormat.value
    ensures s.texFormat.None? ==> c.texFormat == "'\\DTMdate{'yyyy-MM-dd'}'"
  {
    var d := Defaults(user);
    Config(
      GetValue(s.filenamePattern, d.fileNamePattern),
      GetValue(s.lineLimit, d.lineLimit),
      GetValue(s.birthTimeStart, d.birthTimeStart),
      GetValue(s.birthTimeEnd, d.birthTimeEnd),
      GetValue(s.modifiedTimeStart, d.modifiedTimeStart),
      GetValue(s.modifiedTimeEnd, d.modifiedTimeEnd),
      GetValue(s.luxonFormat, d.luxonFormat),
      GetValue(s.suffix, d.tsSuffix),
      GetValue(s.texPlaceholder, d.texPlaceholder),
      GetValue(s.texFormat, d.texFormat))
  }

  /**
   A stored empty token format, and only that, selects ISO-8601: an unset format falls back to
   the non-empty default, and any other stored format is used as it is.
   */
  lemma ResolvedRendering(f: Formatter, t: Instant, s: Settings, user: string)
    ensures Render(f, t, Resolve(s, user).luxonFormat) ==
      if s.luxonFormat == Some("") then f.toIso(t)
      else if s.luxonFormat.None? then f.toFormat(t, "yyyy/MM/dd HH:mm:ss")
      else f.toFormat(t, s.luxonFormat.value)
  {
  }
}
