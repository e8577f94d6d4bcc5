/** What several components read off one rule line: exception markers, domain names, hosts entries. */
module RuleSyntax {
  import opened Text

  const EXCEPTION_MARKERS: seq<string> := ["#@#", "#@?#", "#@$?#", "#@$#", "#@%#"]

  predicate ContainsAny(s: string, texts: seq<string>) {
    exists t :: t in texts && Contains(s, t)
  }

  predicate IsRuleException(raw: string) {
    StartsWith(raw, "@@") || ContainsAny(raw, EXCEPTION_MARKERS)
  }

  predicate IsAlphanumeric(c: char) {
    'a' <= LowerChar(c) <= 'z' || IsDigit(c)
  }

  predicate IsLabel(s: string) {
    1 <= |s| <= 63 && (forall k :: 0 <= k < |s| ==> IsAlphanumeric(s[k]) || s[k] == '-') &&
    s[0] != '-' && s[|s| - 1] != '-'
  }

  predicate IsValidDomainName(s: string) {
    |s| <= 253 && '.' in s && forall part :: part in Split(s, '.') ==> IsLabel(part)
  }

  // ---------- hosts lines ----------

  const ADDRESSES: seq<string> := ["0.0.0.0", "127.0.0.1", "::1", "::"]

  /** The words of a text, cut at runs of whitespace. */
  function Words(s: string): seq<string>
    decreases |s|
  {
    var from := SpacesFrom(s, 0);
    var end := WordEnd(s, from);
    if from == |s| then [] else [s[from..end]] + Words(s[end..])
  }

  function UpToHash(s: string): string {
    var hash := IndexOf(s, '#', 0);
    if hash < 0 then s else s[..hash]
  }

  /** The address a hosts line starts with, when whitespace follows it. */
  function AddressOf(raw: string, addresses: seq<string>): (r: Option<string>)
    ensures r.Some? ==> r.value in addresses && StartsWith(raw, r.value)
  {
    if addresses == [] then None
    else if StartsWith(raw, addresses[0]) && |raw| > |addresses[0]| && IsSpace(raw[|addresses[0]|])
    then Some(addresses[0])
    else AddressOf(raw, addresses[1..])
  }

  /** One entry for each valid name, folded; a valid name has no trailing dot to remove. */
  function Entries(address: string, names: seq<string>): seq<string> {
    if names == [] then []
    else (if IsValidDomainName(names[0]) then [address + " " + Lower(names[0])] else []) + Entries(address, names[1..])
  }

  /** A hosts line as one entry for each name it gives; any other line as itself. */
  function ExpandHostsLine(raw: string): seq<string> {
    match AddressOf(raw, ADDRESSES)
    case None => [raw]
    case Some(address) => Entries(address, Words(UpToHash(raw[|address|..])))
  }

  /** A line that expands to itself. */
  predicate IsEntry(raw: string) {
    ExpandHostsLine(raw) == [raw]
  }
}
