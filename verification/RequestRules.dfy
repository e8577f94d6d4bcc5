/** One filter line compiled for the request evaluator: its pattern body, its conditions on the
    request, its transforms, and its `$badfilter` identity. */
module RequestRules {
  import opened Text
  import opened Sorting

  const REQUEST_RULE_TYPES: set<string> :=
    {"blocking", "unblocking", "parameter", "removeparam", "removeheader", "csp", "redirect"}

  const MODIFY_MODIFIERS: set<string> :=
    {"removeparam", "removeheader", "csp", "replace", "urltransform", "uritransform", "header",
     "referrerpolicy", "permissions", "stealth"}

  const INTERCEPTION_MODIFIERS: set<string> := {"redirect", "redirect-rule", "empty", "mp4", "noop"}

  const RESOURCE_TYPE_MODIFIERS: set<string> :=
    {"document", "subdocument", "script", "stylesheet", "image", "font", "media", "object",
     "object-subrequest", "xmlhttprequest", "ping", "websocket", "other"}

  /** A line as the list parser stored it. */
  datatype Stored = Stored(raw: string, kind: string, isException: bool)

  datatype Context = Context(thirdParty: Option<bool>, requestMethod: Option<string>, contentType: Option<string>)

  datatype Condition =
    | ThirdPartyIs(cross: bool)
    | MethodIn(methods: seq<string>)
    | ContentTypeIs(name: string)
    | ContentTypeIsNot(name: string)
    | Never

  datatype Rule = Rule(
    raw: string,
    isException: bool,
    isImportant: bool,
    identity: string,
    conditions: seq<Condition>,
    contributesBlock: bool,
    removeAllParams: bool,
    removeParamNames: seq<string>,
    keepParamNames: seq<string>,
    removeHeaders: seq<string>,
    removeAllHeaders: bool,
    hasCspModifier: bool,
    csp: seq<string>)

  datatype Entry = Entry(rule: Rule, body: string)

  predicate Holds(c: Condition, ctx: Context) {
    match c
    case ThirdPartyIs(cross) => ctx.thirdParty == Some(cross)
    case MethodIn(methods) => ctx.requestMethod.Some? && Upper(ctx.requestMethod.value) in methods
    case ContentTypeIs(name) => ctx.contentType.Some? && Lower(ctx.contentType.value) == name
    case ContentTypeIsNot(name) => ctx.contentType.Some? && Lower(ctx.contentType.value) != name
    case Never => false
  }

  predicate IsActive(rule: Rule, ctx: Context) {
    forall c :: c in rule.conditions ==> Holds(c, ctx)
  }

  // ---------- splitting ----------

  predicate IsSlashedRegex(s: string) {
    StartsWith(s, "/") && EndsWith(s, "/") && |s| > 2
  }

  function WithoutMarker(raw: string): string {
    var work := Trim(raw);
    if StartsWith(work, "@@") then Trim(work[2..]) else work
  }

  /** The pattern body and the verbatim modifiers; a slashed regex keeps its `$`. */
  function SplitRule(raw: string): (string, seq<string>) {
    var work := WithoutMarker(raw);
    var separator := if IsSlashedRegex(work) then -1 else LastIndexOf(work, '$');
    (if separator < 0 then work else work[..separator],
     if separator < 0 || separator == |work| - 1 then [] else NonEmpty(TrimAll(Split(work[separator + 1..], ','))))
  }

  /** Modifier names are folded, values are kept byte for byte. */
  function FoldName(part: string): string {
    var eq := IndexOf(part, '=', 0);
    if eq < 0 then Lower(Trim(part)) else Lower(Trim(part[..eq])) + part[eq..]
  }

  function FoldNames(parts: seq<string>): (r: seq<string>)
    ensures |r| == |parts|
  {
    if parts == [] then [] else [FoldName(parts[0])] + FoldNames(parts[1..])
  }

  // ---------- identity ----------

  function Without(xs: seq<string>, x: string): seq<string> {
    if xs == [] then []
    else (if xs[0] == x then [] else [xs[0]]) + Without(xs[1..], x)
  }

  function RuleIdentity(body: string, isException: bool, modifiers: seq<string>): string {
    var mods := Sorted(Without(modifiers, "badfilter"));
    (if isException then "@@" else "") + Lower(body) + (if mods == [] then "" else "$" + Join(mods, ","))
  }

  // ---------- modifiers ----------

  datatype Reading = Reading(rule: Rule, isBadfilter: bool, hasModify: bool, hasInterception: bool)

  function Methods(values: seq<string>): seq<string> {
    if values == [] then [] else [Upper(Trim(values[0]))] + Methods(values[1..])
  }

  function WithCondition(a: Reading, c: Condition): (r: Reading)
    ensures r.rule.raw == a.rule.raw
  {
    a.(rule := a.rule.(conditions := a.rule.conditions + [c]))
  }

  function ReadParams(rule: Rule, values: seq<string>): (r: Rule)
    ensures r.raw == rule.raw
    decreases |values|
  {
    if values == [] then rule
    else
      var param := Trim(values[0]);
      var next :=
        if param == "" then rule
        else if StartsWith(param, "~") then
          var kept := Trim(param[1..]);
          rule.(removeAllParams := true,
                keepParamNames := rule.keepParamNames + if kept == "" then [] else [kept])
        else if StartsWith(param, "/") then rule.(removeAllParams := true)
        else rule.(removeParamNames := rule.removeParamNames + [param]);
      ReadParams(next, values[1..])
  }

  function HeaderName(value: string): string {
    Trim(if StartsWith(value, "request:") then value[8..]
         else if StartsWith(value, "response:") then value[9..]
         else value)
  }

  function ReadModify(rule: Rule, name: string, value: string): (r: Rule)
    ensures r.raw == rule.raw
  {
    if name == "removeparam" then
      if value == "" || value == "*" || StartsWith(value, "/") then rule.(removeAllParams := true)
      else ReadParams(rule, Split(value, '|'))
    else if name == "removeheader" then
      var header := HeaderName(value);
      if header != "" then rule.(removeHeaders := rule.removeHeaders + [header])
      else rule.(removeAllHeaders := true)
    else if name == "csp" then
      rule.(hasCspModifier := true, csp := rule.csp + if value == "" then [] else [value])
    else rule
  }

  function ReadModifier(a: Reading, modifier: string): (r: Reading)
    ensures r.rule.raw == a.rule.raw
  {
    var negated := StartsWith(modifier, "~");
    var eq := IndexOf(modifier, '=', 0);
    var unsigned := if negated then modifier[1..] else modifier;
    var name := Trim(if eq < 0 then unsigned else Slice(unsigned, 0, eq));
    ApplyModifier(a, negated, name, if eq < 0 then "" else modifier[eq + 1..])
  }

  function ApplyModifier(a: Reading, negated: bool, name: string, value: string): (r: Reading)
    ensures r.rule.raw == a.rule.raw
  {
    if name == "important" || name == "match-case" then a
    else if name == "badfilter" then a.(isBadfilter := true)
    else if name == "third-party" then WithCondition(a, ThirdPartyIs(!negated))
    else if name == "first-party" then WithCondition(a, ThirdPartyIs(false))
    else if name == "method" && !negated && value != "" then WithCondition(a, MethodIn(Methods(Split(value, '|'))))
    else if name in MODIFY_MODIFIERS && !negated then
      a.(hasModify := true, rule := ReadModify(a.rule, name, value))
    else if name in INTERCEPTION_MODIFIERS && !negated then a.(hasInterception := true)
    else if name in RESOURCE_TYPE_MODIFIERS then
      WithCondition(a, if negated then ContentTypeIsNot(name) else ContentTypeIs(name))
    else WithCondition(a, Never)
  }

  function ReadModifiers(a: Reading, modifiers: seq<string>): (r: Reading)
    ensures r.rule.raw == a.rule.raw
    decreases |modifiers|
  {
    if modifiers == [] then a else ReadModifiers(ReadModifier(a, modifiers[0]), modifiers[1..])
  }

  function BareRule(raw: string, isException: bool, body: string, modifiers: seq<string>): Rule {
    Rule(raw, isException, "important" in modifiers, RuleIdentity(body, isException, modifiers),
         [], true, false, [], [], [], false, false, [])
  }

  /** A compiled line; `isBadfilter` says it is a marker rather than a rule. */
  datatype Compiled = Compiled(entry: Entry, isBadfilter: bool)

  function Compile(raw: string, isExceptionFlag: bool): Option<Compiled> {
    var trimmed := Trim(raw);
    if trimmed == "" then None
    else
      var isException := isExceptionFlag || StartsWith(trimmed, "@@");
      var (body, parts) := SplitRule(trimmed);
      if body == "" && parts == [] then None
      else
        var modifiers := FoldNames(parts);
        var a := ReadModifiers(Reading(BareRule(trimmed, isException, body, modifiers), false, false, false),
                               modifiers);
        Some(Compiled(Entry(a.rule.(contributesBlock := !a.hasModify || a.hasInterception), body), a.isBadfilter))
  }

  method ReadEach(start: Reading, modifiers: seq<string>) returns (a: Reading)
    ensures a == ReadModifiers(start, modifiers)
  {
    a := start;
    var k := 0;
    while k < |modifiers|
      invariant k <= |modifiers|
      invariant ReadModifiers(a, modifiers[k..]) == ReadModifiers(start, modifiers)
    {
      assert modifiers[k..][0] == modifiers[k] && modifiers[k..][1..] == modifiers[k + 1..];
      a := ReadModifier(a, modifiers[k]);
      k := k + 1;
    }
  }

  method CompileRule(raw: string, isExceptionFlag: bool) returns (r: Option<Compiled>)
    ensures r == Compile(raw, isExceptionFlag)
  {
    var trimmed := Trim(raw);
    if trimmed == "" { return None; }
    var isException := isExceptionFlag || StartsWith(trimmed, "@@");
    var (body, parts) := SplitRule(trimmed);
    if body == "" && parts == [] { return None; }
    var modifiers := FoldNames(parts);
    var a := ReadEach(Reading(BareRule(trimmed, isException, body, modifiers), false, false, false), modifiers);
    r := Some(Compiled(Entry(a.rule.(contributesBlock := !a.hasModify || a.hasInterception), body), a.isBadfilter));
  }
}
