/**
 * The host stylesheet's transformer: style rules and conditional groups are parsed,
 * and written out again with every selector under a scope.
 */
module ScopeCss {
  import opened Wrappers

  // ----- characters and scanning ----------------------------------------------------

  predicate Space(c: char) {
    var n := c as int;
    9 <= n <= 13 || n == 32 || n == 0xA0 || n == 0x1680 || 0x2000 <= n <= 0x200A || n == 0x2028 || n == 0x2029
    || n == 0x202F || n == 0x205F || n == 0x3000 || n == 0xFEFF
  }

  predicate LineBreak(c: char) {
    c == '\n' || c == '\r' || c as int == 0x2028 || c as int == 0x2029
  }

  predicate Quote(c: char) {
    c == '"' || c == '\''
  }

  type QuoteChar = c: char | Quote(c) witness '"'

  /** Outside strings, inside one, or just past a backslash inside one. */
  datatype Scan = Outside | Inside(quote: QuoteChar) | Escaped(quote: QuoteChar)

  function Step(q: Scan, c: char): Scan {
    match q
    case Outside => if Quote(c) then Inside(c) else Outside
    case Inside(quote) => if c == '\\' then Escaped(quote) else if c == quote then Outside else q
    case Escaped(quote) => Inside(quote)
  }

  function After(t: string, q: Scan): Scan {
    if t == [] then q else After(t[1..], Step(q, t[0]))
  }

  predicate Brace(c: char) {
    c == '{' || c == '}' || c == ';'
  }

  /** The index of the first brace or semicolon outside strings. */
  function Head(t: string, q: Scan): Option<nat> {
    if t == [] then None
    else if q.Outside? && Brace(t[0]) then Some(0)
    else Later(Head(t[1..], Step(q, t[0])), 1)
  }

  function Later(i: Option<nat>, n: nat): Option<nat> {
    if i.None? then None else Some(i.value + n)
  }

  /** The index just past the brace that brings the depth to zero. */
  function BlockEnd(t: string, depth: int, q: Scan): Option<nat> {
    if t == [] then None
    else if q.Outside? && t[0] == '{' then Later(BlockEnd(t[1..], depth + 1, q), 1)
    else if q.Outside? && t[0] == '}' then if depth == 1 then Some(1) else Later(BlockEnd(t[1..], depth - 1, q), 1)
    else Later(BlockEnd(t[1..], depth, Step(q, t[0])), 1)
  }

  lemma {:induction false} BlockEndWithin(t: string, depth: int, q: Scan)
    ensures BlockEnd(t, depth, q).Some? ==> 1 <= BlockEnd(t, depth, q).value <= |t|
    ensures BlockEnd(t, depth, q).Some? && depth == 0 && q.Outside? && t[0] == '{' ==> BlockEnd(t, depth, q).value >= 2
  {
    if t != [] {
      BlockEndWithin(t[1..], depth + 1, q);
      BlockEndWithin(t[1..], depth - 1, q);
      BlockEndWithin(t[1..], depth, Step(q, t[0]));
    }
  }

  method FindBlockEnd(css: string, start: nat) returns (end: Option<nat>)
    requires start <= |css|
    ensures end == Later(BlockEnd(css[start..], 0, Outside), start)
  {
    var depth, q := 0, Outside;
    for index := start to |css|
      invariant Later(BlockEnd(css[start..], 0, Outside), start) == Later(BlockEnd(css[index..], depth, q), index)
    {
      var c := css[index];
      assert css[index..][1..] == css[index + 1..];
      if q.Outside? && c == '{' {
        depth := depth + 1;
      } else if q.Outside? && c == '}' {
        depth := depth - 1;
        if depth == 0 { return Some(index + 1); }
      } else {
        q := Step(q, c);
      }
    }
    return None;
  }

  // ----- white space ---------------------------------------------------------------------

  function TrimStart(t: string): string {
    if t != [] && Space(t[0]) then TrimStart(t[1..]) else t
  }

  function TrimEnd(t: string): string {
    if t != [] && Space(t[|t| - 1]) then TrimEnd(t[..|t| - 1]) else t
  }

  function Trim(t: string): string {
    TrimEnd(TrimStart(t))
  }

  /** Every run of white space becomes one space. */
  function Collapse(t: string, running: bool): string {
    if t == [] then []
    else if Space(t[0]) then (if running then [] else [' ']) + Collapse(t[1..], true)
    else [t[0]] + Collapse(t[1..], false)
  }

  function Run(t: string): (n: nat)
    ensures n <= |t| && (t != [] && Space(t[0]) ==> n >= 1) && forall i :: 0 <= i < n ==> Space(t[i])
  {
    if t != [] && Space(t[0]) then 1 + Run(t[1..]) else 0
  }

  /** Every run of white space that holds a newline becomes one space. */
  function Unbreak(t: string): string
    decreases |t|
  {
    if t == [] then []
    else if Space(t[0]) then (if '\n' in t[..Run(t)] then [' '] else t[..Run(t)]) + Unbreak(t[Run(t)..])
    else [t[0]] + Unbreak(t[1..])
  }

  // ----- comments ---------------------------------------------------------------------------

  /** Just past the end of a comment. */
  function CommentEnd(t: string): Option<nat> {
    if |t| < 2 then None else if t[0] == '*' && t[1] == '/' then Some(2) else Later(CommentEnd(t[1..]), 1)
  }

  lemma {:induction false} CommentEndWithin(t: string)
    ensures CommentEnd(t).Some? ==> 2 <= CommentEnd(t).value <= |t|
  {
    if |t| >= 2 { CommentEndWithin(t[1..]); }
  }

  function Kept(front: string, rest: Result<string, CssError>): Result<string, CssError> {
    if rest.Err? then rest else Ok(front + rest.value)
  }

  /** The text without its comments; strings stay as they are. */
  function Uncommented(t: string, q: Scan): Result<string, CssError>
    decreases |t|
  {
    if t == [] then if q.Outside? then Ok([]) else Err(UnterminatedString)
    else if q.Outside? && |t| > 1 && t[0] == '/' && t[1] == '*' then
      CommentEndWithin(t[2..]);
      if CommentEnd(t[2..]).None? then Err(UnterminatedComment) else Uncommented(t[2 + CommentEnd(t[2..]).value..], q)
    else Kept([t[0]], Uncommented(t[1..], Step(q, t[0])))
  }

  lemma {:induction false} KeptMore(front: string, c: char, rest: Result<string, CssError>)
    ensures Kept(front, Kept([c], rest)) == Kept(front + [c], rest)
  {
    if rest.Ok? { assert front + ([c] + rest.value) == front + [c] + rest.value; }
  }

  lemma {:induction false} KeptNothing(rest: Result<string, CssError>)
    ensures Kept([], rest) == rest
  {
    if rest.Ok? { assert [] + rest.value == rest.value; }
  }

  method StripComments(css: string) returns (r: Result<string, CssError>)
    ensures r == Uncommented(css, Outside)
  {
    var out: string := [];
    var index, q := 0, Outside;
    assert css[0..] == css;
    KeptNothing(Uncommented(css, Outside));
    while index < |css|
      invariant 0 <= index <= |css| && Uncommented(css, Outside) == Kept(out, Uncommented(css[index..], q))
      decreases |css| - index
    {
      ghost var t := css[index..];
      if q.Outside? && index + 1 < |css| && css[index] == '/' && css[index + 1] == '*' {
        assert t[2..] == css[index + 2..];
        CommentEndWithin(css[index + 2..]);
        var end := CommentEnd(css[index + 2..]);
        if end.None? { return Err(UnterminatedComment); }
        assert t[2 + end.value..] == css[index + 2 + end.value..];
        index := index + 2 + end.value;
      } else {
        assert t[1..] == css[index + 1..];
        KeptMore(out, css[index], Uncommented(css[index + 1..], Step(q, css[index])));
        out, q, index := out + [css[index]], Step(q, css[index]), index + 1;
      }
    }
    assert css[index..] == [] && out + [] == out;
    return if q.Outside? then Ok(out) else Err(UnterminatedString);
  }

  // ----- parsing ----------------------------------------------------------------------------

  datatype Item = Rule(prelude: string, body: string) | Group(prelude: string, items: seq<Item>)

  datatype CssError =
    | UnterminatedComment | UnterminatedString | OutsideRule | Unbalanced | UnterminatedRule | NoSelector | NestedRule | GlobalRule
    | UnbalancedBrackets | EmptySelector | LeadingCombinator | OutsideScope | Unscoped

  /** Just past the closing quote of a string, as the pattern for strings finds it: an escaped line break ends the match. */
  function StringEnd(t: string, quote: char): Option<nat> {
    if t == [] then None
    else if t[0] == quote then Some(1)
    else if t[0] != '\\' then Later(StringEnd(t[1..], quote), 1)
    else if |t| > 1 && !LineBreak(t[1]) then Later(StringEnd(t[2..], quote), 2)
    else None
  }

  lemma {:induction false} StringEndWithin(t: string, quote: char)
    ensures StringEnd(t, quote).Some? ==> 1 <= StringEnd(t, quote).value <= |t|
    decreases |t|
  {
    if t != [] && t[0] != quote {
      StringEndWithin(t[1..], quote);
      if |t| > 1 { StringEndWithin(t[2..], quote); }
    }
  }

  /** The text with every quoted string emptied. */
  function WithoutStrings(t: string): string
    decreases |t|
  {
    if t == [] then []
    else if Quote(t[0]) && StringEnd(t[1..], t[0]).Some? then
      StringEndWithin(t[1..], t[0]);
      ['"', '"'] + WithoutStrings(t[1 + StringEnd(t[1..], t[0]).value..])
    else [t[0]] + WithoutStrings(t[1..])
  }

  function Lower(c: char): char {
    if 'A' <= c <= 'Z' then (c as int + 32) as char else c
  }

  function LowerAll(t: string): string {
    if t == [] then [] else [Lower(t[0])] + LowerAll(t[1..])
  }

  predicate NameChar(c: char) {
    'A' <= c <= 'Z' || 'a' <= c <= 'z' || c == '-'
  }

  function AtName(t: string): string {
    if t != [] && NameChar(t[0]) then [t[0]] + AtName(t[1..]) else []
  }

  predicate StartsWith(t: string, prefix: string) {
    prefix <= t
  }

  /** An at-rule whose body is a list of rules under a condition. */
  predicate GroupRule(prelude: string) {
    StartsWith(prelude, "@") && (LowerAll(AtName(prelude[1..])) == "media" || LowerAll(AtName(prelude[1..])) == "supports")
  }

  function Parse(css: string): Result<seq<Item>, CssError>
    decreases |css|, 1
  {
    match Head(css, Outside)
    case None => if After(css, Outside) != Outside then Err(UnterminatedString) else if Trim(css) != [] then Err(UnterminatedRule) else Ok([])
    case Some(i) =>
      HeadIs(css, Outside);
      Braced(Trim(css[..i]), css[i..])
  }

  /** A prelude, then a brace or semicolon and the rest of the text. */
  function Braced(prelude: string, t: string): Result<seq<Item>, CssError>
    requires t != [] && Brace(t[0])
    decreases |t|, 0
  {
    if t[0] == ';' then Err(OutsideRule)
    else if t[0] == '}' then Err(Unbalanced)
    else
      match BlockEnd(t, 0, Outside)
      case None => Err(Unbalanced)
      case Some(n) =>
        BlockEndWithin(t, 0, Outside);
        Then(ItemOf(prelude, t[1..n - 1]), Parse(t[n..]))
  }

  function Then(item: Result<Item, CssError>, items: Result<seq<Item>, CssError>): Result<seq<Item>, CssError> {
    if item.Err? then Err(item.error) else if items.Err? then Err(items.error) else Ok([item.value] + items.value)
  }

  function ItemOf(prelude: string, body: string): Result<Item, CssError>
    decreases |body|, 2
  {
    if StartsWith(prelude, "@") then
      if !GroupRule(prelude) then Err(GlobalRule)
      else
        match Parse(body)
        case Err(e) => Err(e)
        case Ok(items) => Ok(Group(Collapse(prelude, false), items))
    else if prelude == [] then Err(NoSelector)
    else if '{' in WithoutStrings(body) then Err(NestedRule)
    else Ok(Rule(prelude, body))
  }

  lemma {:induction false} HeadIs(t: string, q: Scan)
    ensures match Head(t, q)
            case None => true
            case Some(i) => i < |t| && Brace(t[i]) && After(t[..i], q) == Outside
  {
    if t != [] && !(q.Outside? && Brace(t[0])) {
      HeadIs(t[1..], Step(q, t[0]));
      if Head(t, q).Some? {
        var i := Head(t, q).value;
        assert t[..i][1..] == t[1..][..i - 1];
      }
    }
  }

  /** The scanner has reached `index` without finding a brace since `start`. */
  predicate Scanned(css: string, start: nat, index: nat, q: Scan)
    requires start <= index <= |css|
  {
    && After(css[start..index], Outside) == q
    && Head(css[start..], Outside) == Later(Head(css[index..], q), index - start)
    && After(css[start..], Outside) == After(css[index..], q)
  }

  lemma {:induction false} ScanOn(css: string, start: nat, index: nat, q: Scan)
    requires start <= index < |css| && Scanned(css, start, index, q) && (!q.Outside? || !Brace(css[index]))
    ensures Scanned(css, start, index + 1, Step(q, css[index]))
  {
    assert css[index..][1..] == css[index + 1..];
    assert css[start..index + 1] == css[start..index] + [css[index]];
    AfterConcat(css[start..index], [css[index]], Outside);
  }

  /** What the rest of the text parses to when the scanner has found a brace. */
  lemma {:induction false} BraceFound(css: string, start: nat, index: nat)
    requires start <= index < |css| && Scanned(css, start, index, Outside) && Brace(css[index])
    ensures Parse(css[start..]) == Braced(Trim(css[start..index]), css[index..])
  {
    var rest, k := css[start..], index - start;
    assert Head(rest, Outside) == Some(k) && rest[k..] == css[index..] && rest[..k] == css[start..index];
  }

  method ParseItem(prelude: string, body: string) returns (r: Result<Item, CssError>)
    ensures r == ItemOf(prelude, body)
    decreases |body|, 2
  {
    if StartsWith(prelude, "@") {
      if !GroupRule(prelude) { return Err(GlobalRule); }
      var items := ParseStylesheet(body);
      return if items.Err? then Err(items.error) else Ok(Group(Collapse(prelude, false), items.value));
    }
    if prelude == [] { return Err(NoSelector); }
    if '{' in WithoutStrings(body) { return Err(NestedRule); }
    return Ok(Rule(prelude, body));
  }

  /** The item whose brace the scanner has found, and where the text after it starts. */
  method TakeItem(css: string, start: nat, index: nat) returns (item: Result<Item, CssError>, end: nat)
    requires start <= index < |css| && Scanned(css, start, index, Outside) && Brace(css[index])
    ensures match item
            case Err(e) => Parse(css[start..]) == Err(e)
            case Ok(taken) => index < end <= |css| && Parse(css[start..]) == Then(Ok(taken), Parse(css[end..]))
    decreases |css|, 0
  {
    BraceFound(css, start, index);
    if css[index] == ';' { return Err(OutsideRule), index; }
    if css[index] == '}' { return Err(Unbalanced), index; }
    var found := FindBlockEnd(css, index);
    if found.None? { return Err(Unbalanced), index; }
    BlockEndWithin(css[index..], 0, Outside);
    end := found.value;
    assert css[index..][1..end - index - 1] == css[index + 1..end - 1] && css[index..][end - index..] == css[end..];
    item := ParseItem(Trim(css[start..index]), css[index + 1..end - 1]);
  }

  method ParseStylesheet(css: string) returns (r: Result<seq<Item>, CssError>)
    ensures r == Parse(css)
    decreases |css|, 1
  {
    var items: seq<Item> := [];
    var start, index, q := 0, 0, Outside;
    assert css[0..] == css;
    FollowingNothing(Parse(css));
    while index < |css|
      invariant 0 <= start <= index <= |css| && Scanned(css, start, index, q)
      invariant Parse(css) == Following(items, Parse(css[start..]))
      decreases |css| - index
    {
      var c := css[index];
      if !q.Outside? || !Brace(c) {
        ScanOn(css, start, index, q);
        q, index := Step(q, c), index + 1;
        continue;
      }
      var item, end := TakeItem(css, start, index);
      if item.Err? { return Err(item.error); }
      FollowingMore(items, item.value, Parse(css[end..]));
      items := items + [item.value];
      start, index := end, end;
      assert css[start..index] == [];
    }
    assert css[index..] == [];
    if q != Outside { return Err(UnterminatedString); }
    if Trim(css[start..]) != [] { return Err(UnterminatedRule); }
    assert items + [] == items;
    return Ok(items);
  }

  lemma {:induction false} FollowingNothing(rest: Result<seq<Item>, CssError>)
    ensures Following([], rest) == rest
  {
    if rest.Ok? { assert [] + rest.value == rest.value; }
  }

  function Following(items: seq<Item>, rest: Result<seq<Item>, CssError>): Result<seq<Item>, CssError> {
    if rest.Err? then rest else Ok(items + rest.value)
  }

  lemma {:induction false} FollowingMore(items: seq<Item>, item: Item, rest: Result<seq<Item>, CssError>)
    ensures Following(items, Then(Ok(item), rest)) == Following(items + [item], rest)
  {
    if rest.Ok? { assert items + ([item] + rest.value) == items + [item] + rest.value; }
  }

  lemma {:induction false} AfterConcat(a: string, b: string, q: Scan)
    ensures After(a + b, q) == After(b, After(a, q))
  {
    if a == [] {
      assert a + b == b;
    } else {
      AfterConcat(a[1..], b, Step(q, a[0]));
      assert (a + b)[1..] == a[1..] + b;
    }
  }

  // ----- selectors --------------------------------------------------------------------------

  function Prepended(part: string, parts: Option<seq<string>>): Option<seq<string>> {
    if parts.None? then None else Some([part] + parts.value)
  }

  /** The parts of a selector list from the one that starts at `start`; None when brackets or quotes do not balance. */
  function SplitFrom(t: string, start: nat, i: nat, depth: nat, q: Scan): Option<seq<string>>
    requires start <= i <= |t|
    decreases |t| - i
  {
    if i == |t| then if depth != 0 || !q.Outside? then None else Some([t[start..]])
    else if !q.Outside? then SplitFrom(t, start, i + 1, depth, Step(q, t[i]))
    else if t[i] == '(' || t[i] == '[' then SplitFrom(t, start, i + 1, depth + 1, q)
    else if t[i] == ')' || t[i] == ']' then if depth == 0 then None else SplitFrom(t, start, i + 1, depth - 1, q)
    else if t[i] == ',' && depth == 0 then Prepended(t[start..i], SplitFrom(t, i + 1, i + 1, 0, q))
    else SplitFrom(t, start, i + 1, depth, Step(q, t[i]))
  }

  function NormalizedAll(parts: seq<string>): seq<string> {
    seq(|parts|, i requires 0 <= i < |parts| => Collapse(Trim(parts[i]), false))
  }

  function PrependedAll(parts: seq<string>, rest: Option<seq<string>>): Option<seq<string>> {
    if rest.None? then None else Some(parts + rest.value)
  }

  lemma {:induction false} OnePrepended(parts: seq<string>, part: string, rest: Option<seq<string>>)
    ensures PrependedAll(parts, Prepended(part, rest)) == PrependedAll(parts + [part], rest)
  {
    if rest.Some? { assert parts + ([part] + rest.value) == parts + [part] + rest.value; }
  }

  method SplitSelectors(prelude: string) returns (selectors: Option<seq<string>>)
    ensures selectors == match SplitFrom(prelude, 0, 0, 0, Outside) case None => None case Some(parts) => Some(NormalizedAll(parts))
  {
    var parts: seq<string> := [];
    var depth, q, start := 0, Outside, 0;
    ghost var all := SplitFrom(prelude, 0, 0, 0, Outside);
    assert all.Some? ==> [] + all.value == all.value;
    for index := 0 to |prelude|
      invariant start <= index && depth >= 0
      invariant all == PrependedAll(parts, SplitFrom(prelude, start, index, depth, q))
    {
      var c := prelude[index];
      if !q.Outside? || Quote(c) {
        q := Step(q, c);
      } else if c == '(' || c == '[' {
        depth := depth + 1;
      } else if c == ')' || c == ']' {
        depth := depth - 1;
        if depth < 0 { return None; }
      } else if c == ',' && depth == 0 {
        OnePrepended(parts, prelude[start..index], SplitFrom(prelude, index + 1, index + 1, 0, q));
        parts := parts + [prelude[start..index]];
        start := index + 1;
      }
    }
    if depth != 0 || !q.Outside? { return None; }
    parts := parts + [prelude[start..]];
    return Some(NormalizedAll(parts));
  }

  /** The name at the front, in any case, ending there or before white space. */
  predicate Leads(s: string, name: string) {
    |s| >= |name| && LowerAll(s[..|name|]) == name && (|s| == |name| || Space(s[|name|]))
  }

  /** The length of a leading document root. */
  function LeadingLength(s: string): (n: nat)
    ensures n <= |s|
  {
    if Leads(s, "html") then 4 else if Leads(s, "body") then 4 else if Leads(s, ":root") then 5 else 0
  }

  /** `refuses` says which selectors could match outside the scope. */
  function ScopeSelector(selector: string, scope: string, refuses: string -> bool): Result<seq<string>, CssError> {
    if selector == [] then Err(EmptySelector)
    else if selector[0] == '>' || selector[0] == '+' || selector[0] == '~' then Err(LeadingCombinator)
    else if selector == "*" then Ok([scope, scope + " *"])
    else
      var n := LeadingLength(selector);
      var rest := if n == 0 then selector else Trim(selector[n..]);
      if refuses(rest) then Err(OutsideScope)
      else if n > 0 && rest == [] then Ok([scope])
      else Ok([scope + " " + rest])
  }

  function ScopeEach(selectors: seq<string>, scope: string, refuses: string -> bool): Result<seq<string>, CssError> {
    if selectors == [] then Ok([])
    else
      match ScopeEach(selectors[..|selectors| - 1], scope, refuses)
      case Err(e) => Err(e)
      case Ok(init) =>
        match ScopeSelector(selectors[|selectors| - 1], scope, refuses)
        case Err(e) => Err(e)
        case Ok(last) => Ok(init + last)
  }

  /** Each selector once, where it first stood. */
  function Distinct(selectors: seq<string>): seq<string> {
    if selectors == [] then []
    else
      var init, last := Distinct(selectors[..|selectors| - 1]), selectors[|selectors| - 1];
      if last in init then init else init + [last]
  }

  predicate InScope(selector: string, scope: string) {
    selector == scope || StartsWith(selector, scope + " ")
  }

  /** The scoped selectors of a rule. */
  function RuleSelectors(prelude: string, scope: string, refuses: string -> bool): Result<seq<string>, CssError> {
    match SplitFrom(prelude, 0, 0, 0, Outside)
    case None => Err(UnbalancedBrackets)
    case Some(parts) =>
      match ScopeEach(NormalizedAll(parts), scope, refuses)
      case Err(e) => Err(e)
      case Ok(all) => if exists s <- Distinct(all) :: !InScope(s, scope) then Err(Unscoped) else Ok(Distinct(all))
  }

  function Listed(selectors: seq<string>): string {
    if selectors == [] then []
    else if |selectors| == 1 then selectors[0]
    else Listed(selectors[..|selectors| - 1]) + ", " + selectors[|selectors| - 1]
  }

  // ----- writing --------------------------------------------------------------------------------

  /** What stands between the braces of a rule written out. */
  function BodyText(body: string): string {
    " " + Unbreak(Trim(body)) + " "
  }

  function RuleLine(indent: string, selectors: seq<string>, body: string): string {
    indent + Listed(selectors) + " {" + BodyText(body) + "}"
  }

  function Lines(items: seq<Item>, scope: string, refuses: string -> bool, indent: string): Result<seq<string>, CssError> {
    if items == [] then Ok([])
    else
      match ItemLines(items[0], scope, refuses, indent)
      case Err(e) => Err(e)
      case Ok(first) =>
        match Lines(items[1..], scope, refuses, indent)
        case Err(e) => Err(e)
        case Ok(rest) => Ok(first + rest)
  }

  function ItemLines(item: Item, scope: string, refuses: string -> bool, indent: string): Result<seq<string>, CssError> {
    match item
    case Rule(prelude, body) =>
      (match RuleSelectors(prelude, scope, refuses)
       case Err(e) => Err(e)
       case Ok(selectors) => Ok([RuleLine(indent, selectors, body)]))
    case Group(prelude, items) =>
      (match Lines(items, scope, refuses, indent + "  ")
       case Err(e) => Err(e)
       case Ok(inner) => Ok([indent + prelude + " {"] + inner + [indent + "}"]))
  }

  /** The lines every level of one stylesheet is written to. */
  class Output {
    var lines: seq<string>

    constructor ()
      ensures lines == []
    {
      lines := [];
    }

    /** Appends the items' lines, or reports the first selector that cannot be scoped. */
    method Emit(items: seq<Item>, scope: string, refuses: string -> bool, indent: string) returns (error: Option<CssError>)
      modifies this
      ensures match Lines(items, scope, refuses, indent)
              case Ok(written) => error.None? && lines == old(lines) + written
              case Err(e) => error == Some(e)
      decreases items
    {
      assert items[0..] == items;
      JoinedNothing(Lines(items, scope, refuses, indent));
      ghost var written: seq<string> := [];
      for i := 0 to |items|
        invariant lines == old(lines) + written
        invariant Lines(items, scope, refuses, indent) == Joined(written, Lines(items[i..], scope, refuses, indent))
      {
        assert items[i..][0] == items[i] && items[i..][1..] == items[i + 1..];
        JoinedMore(written, ItemLines(items[i], scope, refuses, indent), Lines(items[i + 1..], scope, refuses, indent));
        match items[i] {
          case Rule(prelude, body) =>
            var selectors := RuleSelectors(prelude, scope, refuses);
            if selectors.Err? { return Some(selectors.error); }
            lines := lines + [RuleLine(indent, selectors.value, body)];
          case Group(prelude, inner) =>
            lines := lines + [indent + prelude + " {"];
            error := Emit(inner, scope, refuses, indent + "  ");
            if error.Some? { return; }
            lines := lines + [indent + "}"];
        }
        written := written + ItemLines(items[i], scope, refuses, indent).value;
      }
      return None;
    }
  }

  function Joined(written: seq<string>, rest: Result<seq<string>, CssError>): Result<seq<string>, CssError> {
    if rest.Err? then rest else Ok(written + rest.value)
  }

  lemma {:induction false} JoinedNothing(rest: Result<seq<string>, CssError>)
    ensures Joined([], rest) == rest
  {
    if rest.Ok? { assert [] + rest.value == rest.value; }
  }

  lemma {:induction false} JoinedMore(written: seq<string>, first: Result<seq<string>, CssError>, rest: Result<seq<string>, CssError>)
    ensures first.Ok? && rest.Ok? ==> written + (first.value + rest.value) == written + first.value + rest.value
  {
  }

  /** Every line, each ended by a newline. */
  function Unlines(lines: seq<string>): string {
    if lines == [] then [] else lines[0] + "\n" + Unlines(lines[1..])
  }

  /** The lines joined by newlines, and a last newline. */
  function Stylesheet(lines: seq<string>): string {
    if lines == [] then "\n" else Unlines(lines)
  }

  /** The whole transformation: comments out, rules parsed, selectors scoped, lines written. */
  function ScopedStylesheet(css: string, scope: string, refuses: string -> bool): Result<string, CssError> {
    match Uncommented(css, Outside)
    case Err(e) => Err(e)
    case Ok(text) =>
      match Parse(text)
      case Err(e) => Err(e)
      case Ok(items) =>
        match Lines(items, scope, refuses, "")
        case Err(e) => Err(e)
        case Ok(lines) => Ok(Stylesheet(lines))
  }

  method ScopeStylesheet(css: string, scope: string, refuses: string -> bool) returns (r: Result<string, CssError>)
    ensures r == ScopedStylesheet(css, scope, refuses)
  {
    var text := StripComments(css);
    if text.Err? { return Err(text.error); }
    var items := ParseStylesheet(text.value);
    if items.Err? { return Err(items.error); }
    var output := new Output();
    var error := output.Emit(items.value, scope, refuses, "");
    if error.Some? { return Err(error.value); }
    JoinedNothing(Lines(items.value, scope, refuses, ""));
    return Ok(Stylesheet(output.lines));
  }
}
