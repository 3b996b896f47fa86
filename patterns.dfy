/**
 * The signature tables of the rule engine. The regular expressions are kept
 * verbatim as pattern identifiers; what they match is left to the search
 * oracle that the rule engine and the vector scanner receive. The scanner list is a plain substring list.
 */
module Patterns {

  /** `re.search(pattern, text)` is truthy; what a pattern matches is not modelled. */
  type Search = (string, string) -> bool

  const SqliPatterns: seq<string> := [
    "(?i)(union\\s+select)",
    "(?i)(or\\s+1\\s*=\\s*1)",
    "(?i)(drop\\s+table)",
    "(?i)(--|\\#)"
  ]

  const XssPatterns: seq<string> := [
    "(?i)(<script.*?>)",
    "(?i)(javascript:)",
    "(?i)(onerror\\s*=)"
  ]

  const DirTraversalPatterns: seq<string> := [
    "(\\.\\./)",
    "(\\.\\.\\\\)"
  ]

  const CmdInjectionPatterns: seq<string> := [
    "(;|\\|\\|)",
    "(?i)(whoami|id|uname)"
  ]

  const ScannerUserAgents: seq<string> := [
    "sqlmap",
    "nikto",
    "nmap",
    "dirbuster",
    "acunetix"
  ]
}
