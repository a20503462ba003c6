/**
 * The decoded configuration document (config.json under the Valet home
 * directory). Top-level keys map to values; only "domain", "paths" and
 * "rewrites" are interpreted by the router, every other key is carried as
 * its raw JSON text.
 */
module Config {

  /** One entry of the "rewrites" object: a canonical site name and its aliases, in document order. */
  datatype RewriteEntry = RewriteEntry(site: string, aliases: seq<string>)

  datatype ConfigValue =
    | Text(text: string)
    | PathList(paths: seq<string>)
    | RewriteTable(entries: seq<RewriteEntry>)
    | Raw(json: string)

  type ConfigDoc = map<string, ConfigValue>

  /** The router reads "domain" as a string and "paths" as a list without checking either. */
  predicate WellFormed(config: ConfigDoc) {
    && "domain" in config && config["domain"].Text?
    && "paths" in config && config["paths"].PathList?
  }

  function Domain(config: ConfigDoc): string
    requires WellFormed(config)
  {
    config["domain"].text
  }

  function Paths(config: ConfigDoc): seq<string>
    requires WellFormed(config)
  {
    config["paths"].paths
  }

  /**
   * The rewrite table; an absent (or non-array) "rewrites" key makes the
   * rewrite step do nothing, which is the same as an empty table.
   */
  function Rewrites(config: ConfigDoc): (table: seq<RewriteEntry>)
    ensures "rewrites" !in config ==> table == []
  {
    if "rewrites" in config && config["rewrites"].RewriteTable? then config["rewrites"].entries else []
  }

  /** The configuration shown on the 404 page: "domain" and "paths" removed, every other key kept as it is. */
  function CustomConfig(config: ConfigDoc): (custom: ConfigDoc)
    ensures custom.Keys == config.Keys - {"domain", "paths"}
    ensures forall k :: k in custom ==> custom[k] == config[k]
    ensures "rewrites" in config ==> "rewrites" in custom && custom["rewrites"] == config["rewrites"]
  {
    config - {"domain", "paths"}
  }
}
