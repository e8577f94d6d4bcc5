/** The canonical key under which different spellings of one rule are grouped. */
module RuleKeys {
  import opened Text
  import opened RuleSyntax
  import Sorting

  const COSMETIC_MARKERS: seq<string> :=
    ["#@$?#", "#$?#", "#@?#", "#@%#", "#@$#", "#@#", "#?#", "#$#", "#%#", "##", "$$"]

  const NO_TARGET := "modifier_or_selector_rule"

  // ---------- cosmetic rules ----------

  /** The first alternative that stands at `i`. */
  function MarkerAt(s: string, i: nat, markers: seq<string>): Option<string> {
    if markers == [] then None
    else if At(s, i, markers[0]) then Some(markers[0])
    else MarkerAt(s, i, markers[1..])
  }

  /** The leftmost cosmetic marker at or after `i`. */
  function FindMarker(s: string, i: nat): (r: Option<(nat, string)>)
    ensures r.Some? ==> At(s, r.value.0, r.value.1)
    decreases |s| - i
  {
    if i >= |s| then None
    else
      var marker := MarkerAt(s, i, COSMETIC_MARKERS);
      if marker.Some? then
        MarkerIsAt(s, i, COSMETIC_MARKERS);
        Some((i, marker.value))
      else FindMarker(s, i + 1)
  }

  lemma {:induction false} MarkerIsAt(s: string, i: nat, markers: seq<string>)
    ensures var marker := MarkerAt(s, i, markers); marker.Some? ==> At(s, i, marker.value) && marker.value in markers
    ensures MarkerAt(s, i, markers).None? ==> forall m :: m in markers ==> !At(s, i, m)
  {
    if markers != [] && !At(s, i, markers[0]) {
      MarkerIsAt(s, i, markers[1..]);
      assert markers == [markers[0]] + markers[1..];
    }
  }

  function CosmeticKind(marker: string, payload: string): string {
    if marker == "$$" then "html"
    else if '%' in marker || '$' in marker || StartsWith(payload, "+js(") then "scriptlet"
    else if '?' in marker then "extsel"
    else "sel"
  }

  /** Every run of whitespace as one space. */
  function CollapseSpaces(s: string): string {
    if s == "" then ""
    else if IsSpace(s[0]) then
      (if |s| > 1 && IsSpace(s[1]) then "" else " ") + CollapseSpaces(s[1..])
    else [s[0]] + CollapseSpaces(s[1..])
  }

  function CosmeticKey(input: string, at: nat, marker: string): string
    requires At(input, at, marker)
  {
    var scope := Lower(input[..at]);
    var payload := input[at + |marker|..];
    var kind := CosmeticKind(marker, payload);
    (if scope == "" then NO_TARGET else scope) + "|" + kind + "=" +
    if kind == "scriptlet" then Trim(CollapseSpaces(payload)) else payload
  }

  // ---------- network rules ----------

  predicate IsDomainChar(c: char) {
    'a' <= LowerChar(c) <= 'z' || IsDigit(c) || c == '.' || c == '-'
  }

  predicate IsDomainText(s: string) {
    s != "" && forall k :: 0 <= k < |s| ==> IsDomainChar(s[k])
  }

  /** The index of the `$` that starts the options, or -1; a `$` inside a regex is part of it. */
  function OptionsAt(input: string): (r: int)
    ensures r == -1 || 0 <= r < |input|
  {
    var regexEnd := if StartsWith(input, "/") then LastIndexOf(input, '/') else -1;
    if regexEnd > 0 && (regexEnd == |input| - 1 || input[regexEnd + 1] == '$') then
      if regexEnd + 1 < |input| then regexEnd + 1 else -1
    else IndexOf(input, '$', 0)
  }

  /** The names of a hosts line at `address`, up to a comment. */
  function HostsNames(target: string, address: string): Option<string> {
    if !StartsWith(target, address) then None
    else
      var from := SpacesFrom(target, |address|);
      var hash := IndexOf(target, '#', from);
      if from == |address| || from == |target| || hash == from then None
      else if hash >= 0 && (exists k :: hash < k < |target| && IsLineEnd(target[k])) then None
      else Some(Trim(if hash < 0 then target[from..] else target[from..hash]))
  }

  function HostsTarget(target: string): Option<string> {
    if HostsNames(target, "0.0.0.0").Some? then HostsNames(target, "0.0.0.0")
    else if HostsNames(target, "127.0.0.1").Some? then HostsNames(target, "127.0.0.1")
    else if HostsNames(target, "::1").Some? then HostsNames(target, "::1")
    else HostsNames(target, "::")
  }

  /** The domain of a whole-host suffix pattern `||domain^`. */
  function SuffixDomain(text: string): Option<string> {
    if |text| > 3 && StartsWith(text, "||") && text[|text| - 1] == '^' && IsDomainText(text[2..|text| - 1])
    then Some(text[2..|text| - 1])
    else None
  }

  function WithoutTrailingDot(s: string): string {
    if s != "" && s[|s| - 1] == '.' then s[..|s| - 1] else s
  }

  function CanonicalTarget(target: string): string {
    var hosts := HostsTarget(target);
    var named := if hosts.Some? then hosts.value else target;
    var suffix := SuffixDomain(named);
    var canonical :=
      if suffix.Some? then WithoutTrailingDot(Lower(suffix.value))
      else if IsDomainText(named) then WithoutTrailingDot(Lower(named))
      else named;
    if canonical == "" then NO_TARGET else canonical
  }

  // ---------- options ----------

  /** The `domain` option, the last one winning, and the other modifiers. */
  datatype Options = Options(domain: string, modifiers: seq<string>)

  function ReadOption(o: Options, part: string): Options {
    var equal := IndexOf(part, '=', 0);
    var name := Lower(Trim(if equal < 0 then part else part[..equal]));
    var text := if equal < 0 then name else name + "=" + part[equal + 1..];
    if part == "" then o
    else if name == "domain" then o.(domain := if equal < 0 then "" else Lower(part[equal + 1..]))
    else if text == "" then o
    else o.(modifiers := o.modifiers + [text])
  }

  function ReadOptions(o: Options, parts: seq<string>): Options
    decreases |parts|
  {
    if parts == [] then o else ReadOptions(ReadOption(o, parts[0]), parts[1..])
  }

  predicate IsComplex(options: string) {
    '\\' in options || '/' in options || '"' in options || '\'' in options
  }

  function OptionsKey(options: string): string {
    if IsComplex(options) then "|options=" + options
    else
      var o := ReadOptions(Options("", []), Split(options, ','));
      (if o.domain == "" then "" else "|domain=" + o.domain) +
      if o.modifiers == [] then "" else "|mods=" + Sorting.Join(Sorting.Sorted(o.modifiers), ",")
  }

  function NetworkKey(input: string): string {
    var dollar := OptionsAt(input);
    if dollar < 0 then CanonicalTarget(input)
    else CanonicalTarget(input[..dollar]) + OptionsKey(input[dollar + 1..])
  }

  function WithoutAt(raw: string): string {
    if StartsWith(raw, "@@") then raw[2..] else raw
  }

  function PatternKey(input: string): string {
    match FindMarker(input, 0)
    case Some((at, marker)) => CosmeticKey(input, at, marker)
    case None => NetworkKey(input)
  }

  /** The canonical key of a rule; empty for a blank line. */
  function StripRule(rule: string): string {
    var raw := Trim(rule);
    if raw == "" then ""
    else (if IsRuleException(raw) then "@@" else "") + PatternKey(WithoutAt(raw))
  }
}
