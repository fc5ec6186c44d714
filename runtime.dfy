/** The pieces of the running process that the actions call but that are not part of the core:
    the loaded configuration, the clock-dependent date formatting, the regular-expression
    engine, query-string decoding and image drawing. Each is a fixed but arbitrary function. */
module Runtime {
  import opened Common
  import opened Config

  datatype Site = Site(
    /** The configuration sections as loaded by the first lookup. */
    cfg: Sections,
    /** `time.strftime` at the moment of the request. */
    strftime: string -> string,
    /** `re.match(pattern, text) is not None`. */
    matches: (string, string) -> bool,
    /** `re.search(pattern, text)`: `None` when nothing matches, otherwise its capture groups in
        order (a group that took no part in the match is `None`). */
    search: (string, string) -> Option<seq<Option<string>>>,
    /** `parse.parse_qs(parse.unquote(query))`: every field with its values, never empty. */
    reparse: string -> map<string, seq<string>>,
    /** Drawing `text` at `(x, y)` in `color` onto the image stored as `content`, then
        encoding the image again in its own format. */
    draw: (string, Value, Value, string, Value) -> string)
}
