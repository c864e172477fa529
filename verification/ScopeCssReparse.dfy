/**
 * The scoped stylesheet parses again: to the same nesting and order of rules and
 * groups, each rule under its scoped selectors, exactly when no rule's body shows a
 * brace outside its strings once its line breaks are gone.
 */
module ScopeCssReparse {
  import opened Wrappers
  import opened ScopeCss
  import opened ScopeCssScans

  // ----- what parsing guarantees of an item --------------------------------------------

  predicate Formed(item: Item) {
    match item
    case Rule(prelude, body) => Clean(prelude) && Trimmed(prelude) && Contained(body) && '{' !in WithoutStrings(body)
    case Group(prelude, items) =>
      && Clean(prelude) && Trimmed(prelude) && GroupRule(prelude) && Collapse(prelude, false) == prelude
      && forall i :: 0 <= i < |items| ==> Formed(items[i])
  }

  predicate AllFormed(items: seq<Item>) {
    forall i :: 0 <= i < |items| ==> Formed(items[i])
  }

  lemma {:induction false} TrimClean(t: string)
    requires Clean(t)
    ensures Clean(Trim(t)) && (Trim(t) == [] || Trimmed(Trim(t)))
  {
    TrimScan(t);
    var lead, trail := TrimSplits(t);
  }

  lemma {:induction false} CollapseClean(t: string)
    requires Clean(t)
    ensures Clean(Collapse(t, false))
  {
    CollapseScan(t, false, Outside);
  }

  lemma {:induction false} GroupPrelude(prelude: string)
    requires Clean(prelude) && Trimmed(prelude) && GroupRule(prelude)
    ensures var p := Collapse(prelude, false); Clean(p) && Trimmed(p) && GroupRule(p) && Collapse(p, false) == p
  {
    CollapseClean(prelude);
    CollapseTrimmed(prelude);
    CollapseGroupRule(prelude);
    CollapseAgain(prelude, false);
  }

  lemma {:induction false} ParsedFormed(css: string)
    requires Parse(css).Ok?
    ensures AllFormed(Parse(css).value)
    decreases |css|, 1
  {
    HeadIs(css, Outside);
    HeadCalm(css, Outside);
    if Head(css, Outside).Some? {
      var i := Head(css, Outside).value;
      TrimClean(css[..i]);
      BracedFormed(Trim(css[..i]), css[i..]);
    }
  }

  /** The text between the braces is a block's contents. */
  lemma {:induction false} BodyContained(t: string)
    requires t != [] && t[0] == '{' && BlockEnd(t, 0, Outside).Some?
    ensures var n := BlockEnd(t, 0, Outside).value; 2 <= n <= |t| && Contained(t[1..n - 1])
  {
    BlockEndWithin(t, 0, Outside);
    BlockEndFound(t[1..], 1, Outside);
    assert t[1..][..BlockEnd(t, 0, Outside).value - 2] == t[1..BlockEnd(t, 0, Outside).value - 1];
  }

  lemma {:induction false} BracedFormed(prelude: string, t: string)
    requires t != [] && Brace(t[0]) && Clean(prelude) && (prelude == [] || Trimmed(prelude)) && Braced(prelude, t).Ok?
    ensures AllFormed(Braced(prelude, t).value)
    decreases |t|, 0
  {
    BodyContained(t);
    var n := BlockEnd(t, 0, Outside).value;
    ItemFormed(prelude, t[1..n - 1]);
    ParsedFormed(t[n..]);
  }

  lemma {:induction false} ItemFormed(prelude: string, body: string)
    requires Clean(prelude) && (prelude == [] || Trimmed(prelude)) && Contained(body) && ItemOf(prelude, body).Ok?
    ensures Formed(ItemOf(prelude, body).value)
    decreases |body|, 2
  {
    if StartsWith(prelude, "@") {
      GroupPrelude(prelude);
      ParsedFormed(body);
    }
  }

  // ----- scoped selectors -----------------------------------------------------------------

  /** A scope that stands as a selector of its own. */
  predicate PlainScope(scope: string) {
    Clean(scope) && Trimmed(scope) && scope[0] != '@'
  }

  predicate Scoped(s: string, scope: string) {
    Clean(s) && Trimmed(s) && s[0] != '@' && InScope(s, scope)
  }

  lemma {:induction false} CalmParts(a: string, b: string, q: Scan)
    requires Calm(Outer(a + b, q))
    ensures Calm(Outer(a, q)) && Calm(Outer(b, After(a, q)))
  {
    ScanConcat(a, b, q);
    var o := Outer(a, q) + Outer(b, After(a, q));
    forall c | c in Outer(a, q) || c in Outer(b, After(a, q)) ensures !Brace(c) { assert c in o; }
  }

  /** Every part of a split ends outside strings and holds no brace. */
  lemma {:induction false} SplitClean(t: string, start: nat, i: nat, depth: nat, q: Scan)
    requires start <= i <= |t| && q == After(t[start..i], Outside) && Calm(Outer(t[start..], Outside))
    requires SplitFrom(t, start, i, depth, q).Some?
    ensures SplitFrom(t, start, i, depth, q).value != []
    ensures forall part <- SplitFrom(t, start, i, depth, q).value :: Clean(part)
    decreases |t| - i
  {
    if i == |t| {
      assert t[start..i] == t[start..];
    } else if q.Outside? && t[i] == ',' && depth == 0 {
      AtComma(t, start, i);
      assert t[i + 1..i + 1] == [];
      SplitClean(t, i + 1, i + 1, 0, Outside);
    } else {
      var c := t[i];
      assert After(t[start..i + 1], Outside) == Step(q, c) by {
        assert t[start..i + 1] == t[start..i] + [c];
        AfterConcat(t[start..i], [c], Outside);
      }
      var deeper := if q.Outside? && (c == '(' || c == '[') then depth + 1 else if q.Outside? && (c == ')' || c == ']') then depth - 1 else depth;
      SplitClean(t, start, i + 1, deeper, Step(q, c));
    }
  }

  /** Both sides of a comma outside strings are as calm as the whole. */
  lemma {:induction false} AtComma(t: string, start: nat, i: nat)
    requires start <= i < |t| && t[i] == ',' && After(t[start..i], Outside) == Outside && Calm(Outer(t[start..], Outside))
    ensures Clean(t[start..i]) && Calm(Outer(t[i + 1..], Outside))
  {
    assert t[start..] == t[start..i] + t[i..] && t[i..] == [t[i]] + t[i + 1..];
    CalmParts(t[start..i], t[i..], Outside);
    CalmParts([t[i]], t[i + 1..], Outside);
  }

  lemma {:induction false} NormalizedClean(part: string)
    requires Clean(part)
    ensures var s := Collapse(Trim(part), false); Clean(s) && (s == [] || Trimmed(s))
  {
    TrimClean(part);
    CollapseClean(Trim(part));
    if Trim(part) != [] { CollapseTrimmed(Trim(part)); }
  }

  lemma {:induction false} LoweredPlain(t: string)
    requires forall c <- LowerAll(t) :: !Quote(c) && !Brace(c)
    ensures Clean(t)
  {
    if t != [] {
      assert LowerAll(t)[0] == Lower(t[0]) && LowerAll(t)[1..] == LowerAll(t[1..]);
      assert Lower(t[0]) in LowerAll(t);
      assert !Quote(t[0]) && !Brace(t[0]);
      forall c <- LowerAll(t[1..]) ensures !Quote(c) && !Brace(c) { assert c in LowerAll(t)[1..]; }
      LoweredPlain(t[1..]);
    }
  }

  lemma {:induction false} AfterLeading(s: string)
    requires Clean(s)
    ensures Clean(s[..LeadingLength(s)]) && Clean(s[LeadingLength(s)..])
  {
    var n := LeadingLength(s);
    assert s == s[..n] + s[n..];
    if n == 0 {
      assert s[..0] == [] && s[0..] == s;
    } else {
      assert LowerAll(s[..n]) == "html" || LowerAll(s[..n]) == "body" || LowerAll(s[..n]) == ":root";
      LoweredPlain(s[..n]);
    }
    CalmParts(s[..n], s[n..], Outside);
    AfterConcat(s[..n], s[n..], Outside);
  }

  lemma {:induction false} Under(scope: string, rest: string)
    requires PlainScope(scope) && Clean(rest) && Trimmed(rest)
    ensures Scoped(scope + " " + rest, scope)
  {
    BlankClean(" ");
    CleanConcat(scope, " ");
    CleanConcat(scope + " ", rest);
  }

  /** Whatever the refused selectors, what one becomes is the scope or inside it. */
  lemma {:induction false} SelectorScoped(selector: string, scope: string, refuses: string -> bool)
    requires PlainScope(scope) && Clean(selector) && (selector == [] || Trimmed(selector)) && ScopeSelector(selector, scope, refuses).Ok?
    ensures ScopeSelector(selector, scope, refuses).value != []
    ensures forall s <- ScopeSelector(selector, scope, refuses).value :: Scoped(s, scope)
  {
    if selector == "*" {
      Under(scope, "*");
      assert scope + " *" == scope + " " + "*";
    } else {
      var n := LeadingLength(selector);
      AfterLeading(selector);
      TrimClean(selector[n..]);
      var rest := if n == 0 then selector else Trim(selector[n..]);
      if rest != [] { Under(scope, rest); }
    }
  }

  lemma {:induction false} EachScoped(selectors: seq<string>, scope: string, refuses: string -> bool)
    requires PlainScope(scope) && ScopeEach(selectors, scope, refuses).Ok?
    requires forall s <- selectors :: Clean(s) && (s == [] || Trimmed(s))
    ensures forall s <- ScopeEach(selectors, scope, refuses).value :: Scoped(s, scope)
    ensures selectors != [] ==> ScopeEach(selectors, scope, refuses).value != []
  {
    if selectors != [] {
      EachScoped(selectors[..|selectors| - 1], scope, refuses);
      SelectorScoped(selectors[|selectors| - 1], scope, refuses);
    }
  }

  lemma {:induction false} DistinctIs(selectors: seq<string>)
    ensures forall s :: s in Distinct(selectors) <==> s in selectors
    ensures forall i, j :: 0 <= i < j < |Distinct(selectors)| ==> Distinct(selectors)[i] != Distinct(selectors)[j]
  {
    if selectors != [] {
      DistinctIs(selectors[..|selectors| - 1]);
      assert selectors == selectors[..|selectors| - 1] + [selectors[|selectors| - 1]];
    }
  }

  /** A rule's scoped selectors are distinct, and each is the scope or inside it: the last check never fails. */
  lemma {:induction false} RuleScoped(prelude: string, scope: string, refuses: string -> bool)
    requires PlainScope(scope) && Clean(prelude)
    ensures RuleSelectors(prelude, scope, refuses) != Err(Unscoped)
    ensures RuleSelectors(prelude, scope, refuses).Ok? ==>
              var selectors := RuleSelectors(prelude, scope, refuses).value;
              && selectors != [] && (forall s <- selectors :: Scoped(s, scope))
              && forall i, j :: 0 <= i < j < |selectors| ==> selectors[i] != selectors[j]
  {
    var split := SplitFrom(prelude, 0, 0, 0, Outside);
    if split.Some? {
      assert prelude[0..] == prelude;
      SplitClean(prelude, 0, 0, 0, Outside);
      var normal := NormalizedAll(split.value);
      forall s <- normal ensures Clean(s) && (s == [] || Trimmed(s)) {
        var i :| 0 <= i < |normal| && normal[i] == s;
        NormalizedClean(split.value[i]);
      }
      var all := ScopeEach(normal, scope, refuses);
      if all.Ok? {
        EachScoped(normal, scope, refuses);
        DistinctIs(all.value);
        assert all.value[0] in Distinct(all.value);
      } else {
        EachNotUnscoped(normal, scope, refuses);
      }
    }
  }

  lemma {:induction false} EachNotUnscoped(selectors: seq<string>, scope: string, refuses: string -> bool)
    ensures ScopeEach(selectors, scope, refuses) != Err(Unscoped)
  {
    if selectors != [] { EachNotUnscoped(selectors[..|selectors| - 1], scope, refuses); }
  }

  lemma {:induction false} ListedScoped(selectors: seq<string>, scope: string)
    requires selectors != [] && forall s <- selectors :: Scoped(s, scope)
    ensures Clean(Listed(selectors)) && Trimmed(Listed(selectors)) && Listed(selectors)[0] != '@'
  {
    if |selectors| > 1 {
      var init, last := selectors[..|selectors| - 1], selectors[|selectors| - 1];
      ListedScoped(init, scope);
      assert last in selectors;
      assert After(", ", Outside) == Outside && Outer(", ", Outside) == ",";
      CleanConcat(Listed(init), ", ");
      CleanConcat(Listed(init) + ", ", last);
    } else {
      assert selectors[0] in selectors;
    }
  }

  // ----- parsing a block again ------------------------------------------------------------

  lemma {:induction false} BracedBlock(prelude: string, body: string, rest: string)
    requires Contained(body)
    ensures var t := "{" + body + "}" + rest; t[0] == '{' && Braced(prelude, t) == Then(ItemOf(prelude, body), Parse(rest))
  {
    var t := "{" + body + "}" + rest;
    var tail := "}" + rest;
    assert t[1..] == body + tail && tail[0] == '}';
    BlockEndPast(body, tail, 1, Outside);
    assert BlockEnd(tail, 1, Outside) == Some(1);
    assert BlockEnd(t, 0, Outside) == Some(|body| + 2);
    assert t[1..|body| + 1] == body && t[|body| + 2..] == rest;
  }

  /** White space, a prelude and a block parse to the block's item and then the rest. */
  lemma {:induction false} BlockParses(w: string, prelude: string, body: string, rest: string)
    requires Blank(w) && Clean(prelude) && Trimmed(prelude) && Contained(body)
    ensures Parse(w + prelude + " " + ("{" + body + "}" + rest)) == Then(ItemOf(prelude, body), Parse(rest))
  {
    var head, t := w + prelude + " ", "{" + body + "}" + rest;
    var css := head + t;
    BlankClean(w);
    BlankClean(" ");
    CleanConcat(w, prelude);
    CleanConcat(w + prelude, " ");
    BracedBlock(prelude, body, rest);
    HeadFinds(head, t, Outside);
    TrimPadded(w, prelude, " ");
    assert css[..|head|] == head && css[|head|..] == t;
  }

  lemma {:induction false} BlankParses(t: string)
    requires Blank(t)
    ensures Parse(t) == Ok([])
  {
    BlankScan(t, Outside);
    HeadNone(t, Outside);
    TrimBlank(t);
  }

  // ----- what is written out -----------------------------------------------------------------

  /** The item as it parses again: scoped selectors in place of the prelude, and the body as written. */
  function ScopedItem(item: Item, scope: string, refuses: string -> bool): Item {
    match item
    case Rule(prelude, body) =>
      var selectors := RuleSelectors(prelude, scope, refuses);
      Rule(if selectors.Ok? then Listed(selectors.value) else [], BodyText(body))
    case Group(prelude, items) => Group(prelude, seq(|items|, i requires 0 <= i < |items| => ScopedItem(items[i], scope, refuses)))
  }

  function ScopedItems(items: seq<Item>, scope: string, refuses: string -> bool): seq<Item> {
    seq(|items|, i requires 0 <= i < |items| => ScopedItem(items[i], scope, refuses))
  }

  /** No brace shows outside strings in any body as written. */
  predicate Flat(item: Item) {
    match item
    case Rule(_, body) => '{' !in WithoutStrings(BodyText(body))
    case Group(_, items) => forall i :: 0 <= i < |items| ==> Flat(items[i])
  }

  predicate AllFlat(items: seq<Item>) {
    forall i :: 0 <= i < |items| ==> Flat(items[i])
  }

  lemma {:induction false} BodyTextContained(body: string)
    requires Contained(body)
    ensures Contained(BodyText(body))
  {
    TrimScan(body);
    UnbreakScan(Trim(body), Outside);
    BlankClean(" ");
    CleanContained(" ");
    ContainedConcat(" ", Unbreak(Trim(body)));
    ContainedConcat(" " + Unbreak(Trim(body)), " ");
  }

  lemma {:induction false} UnlinesConcat(a: seq<string>, b: seq<string>)
    ensures Unlines(a + b) == Unlines(a) + Unlines(b)
  {
    if a == [] {
      assert a + b == b;
      assert [] + Unlines(b) == Unlines(b);
    } else {
      UnlinesConcat(a[1..], b);
      assert (a + b)[1..] == a[1..] + b;
    }
  }

  lemma {:induction false} UnlinesOne(line: string)
    ensures Unlines([line]) == line + "\n"
  {
    assert [line][1..] == [];
    assert line + "\n" + [] == line + "\n";
  }

  /** A group's lines: its prelude, a block with the inner lines, and a newline. */
  function GroupBody(inner: seq<string>, indent: string): string {
    "\n" + Unlines(inner) + indent
  }

  lemma {:induction false} GroupText(prelude: string, inner: seq<string>, indent: string)
    ensures Unlines([indent + prelude + " {"] + inner + [indent + "}"]) == indent + prelude + " " + ("{" + GroupBody(inner, indent) + "}" + "\n")
  {
    UnlinesConcat([indent + prelude + " {"] + inner, [indent + "}"]);
    UnlinesConcat([indent + prelude + " {"], inner);
    UnlinesOne(indent + prelude + " {");
    UnlinesOne(indent + "}");
  }

  lemma {:induction false} RuleText(indent: string, selectors: seq<string>, body: string)
    ensures Unlines([RuleLine(indent, selectors, body)]) == indent + Listed(selectors) + " " + ("{" + BodyText(body) + "}" + "\n")
  {
    UnlinesOne(RuleLine(indent, selectors, body));
  }

  /** A prelude and a block, written out, can stand inside a block. */
  lemma {:induction false} BlockTextContained(indent: string, prelude: string, body: string)
    requires Blank(indent) && Clean(prelude) && Contained(body)
    ensures Contained(indent + prelude + " " + ("{" + body + "}" + "\n"))
  {
    BlankClean(indent);
    BlankClean(" ");
    BlankClean("\n");
    CleanConcat(indent, prelude);
    CleanConcat(indent + prelude, " ");
    CleanContained(indent + prelude + " ");
    BlockContained(body);
    CleanContained("\n");
    ContainedConcat("{" + body + "}", "\n");
    ContainedConcat(indent + prelude + " ", "{" + body + "}" + "\n");
  }

  /** What is written out of formed items can stand inside a block. */
  lemma {:induction false} WrittenContained(items: seq<Item>, scope: string, refuses: string -> bool, indent: string)
    requires AllFormed(items) && PlainScope(scope) && Blank(indent) && Lines(items, scope, refuses, indent).Ok?
    ensures Contained(Unlines(Lines(items, scope, refuses, indent).value))
    decreases items, 1
  {
    if items == [] {
      BlankClean("");
      CleanContained("");
    } else {
      var first, rest := ItemLines(items[0], scope, refuses, indent).value, Lines(items[1..], scope, refuses, indent).value;
      ItemWrittenContained(items[0], scope, refuses, indent);
      WrittenContained(items[1..], scope, refuses, indent);
      UnlinesConcat(first, rest);
      ContainedConcat(Unlines(first), Unlines(rest));
    }
  }

  lemma {:induction false} ItemWrittenContained(item: Item, scope: string, refuses: string -> bool, indent: string)
    requires Formed(item) && PlainScope(scope) && Blank(indent) && ItemLines(item, scope, refuses, indent).Ok?
    ensures Contained(Unlines(ItemLines(item, scope, refuses, indent).value))
    decreases item, 0
  {
    match item
    case Rule(prelude, body) =>
      var selectors := RuleSelectors(prelude, scope, refuses).value;
      RuleScoped(prelude, scope, refuses);
      ListedScoped(selectors, scope);
      BodyTextContained(body);
      RuleText(indent, selectors, body);
      BlockTextContained(indent, Listed(selectors), BodyText(body));
    case Group(prelude, items) =>
      var inner := Lines(items, scope, refuses, indent + "  ").value;
      WrittenContained(items, scope, refuses, indent + "  ");
      GroupBodyContained(inner, indent);
      GroupText(prelude, inner, indent);
      BlockTextContained(indent, prelude, GroupBody(inner, indent));
  }

  lemma {:induction false} GroupBodyContained(inner: seq<string>, indent: string)
    requires Contained(Unlines(inner)) && Blank(indent)
    ensures Contained(GroupBody(inner, indent))
  {
    BlankClean("\n");
    BlankClean(indent);
    CleanContained("\n");
    CleanContained(indent);
    ContainedConcat("\n", Unlines(inner));
    ContainedConcat("\n" + Unlines(inner), indent);
  }

  // ----- parsing it again -------------------------------------------------------------------------

  function Reparsed(items: seq<Item>, scope: string, refuses: string -> bool): Result<seq<Item>, CssError> {
    if AllFlat(items) then Ok(ScopedItems(items, scope, refuses)) else Err(NestedRule)
  }

  function ReparsedItem(item: Item, scope: string, refuses: string -> bool): Result<Item, CssError> {
    if Flat(item) then Ok(ScopedItem(item, scope, refuses)) else Err(NestedRule)
  }

  lemma {:induction false} ReparsedMore(items: seq<Item>, scope: string, refuses: string -> bool)
    requires items != []
    ensures Reparsed(items, scope, refuses) == Then(ReparsedItem(items[0], scope, refuses), Reparsed(items[1..], scope, refuses))
  {
    var rest := items[1..];
    assert AllFlat(items) <==> Flat(items[0]) && AllFlat(rest) by {
      assert forall i :: 0 <= i < |rest| ==> rest[i] == items[i + 1];
      assert forall i :: 1 <= i < |items| ==> items[i] == rest[i - 1];
    }
    assert ScopedItems(items, scope, refuses) == [ScopedItem(items[0], scope, refuses)] + ScopedItems(rest, scope, refuses);
  }

  lemma {:induction false} FourJoined(a: string, b: string, c: string, d: string)
    ensures a + (b + c) + d == a + b + (c + d)
  {
  }

  /** Between any white space, the items' text parses to the scoped items, or is refused as nested. */
  lemma {:induction false} LinesReparse(items: seq<Item>, scope: string, refuses: string -> bool, indent: string, w: string, v: string)
    requires AllFormed(items) && PlainScope(scope) && Blank(indent) && Blank(w) && Blank(v) && Lines(items, scope, refuses, indent).Ok?
    ensures Parse(w + Unlines(Lines(items, scope, refuses, indent).value) + v) == Reparsed(items, scope, refuses)
    decreases items, 1
  {
    if items == [] {
      var none := Lines(items, scope, refuses, indent).value;
      assert none == [] && Unlines(none) == [];
      assert w + Unlines(none) + v == w + v;
      BlankParses(w + v);
      assert AllFlat(items) && ScopedItems(items, scope, refuses) == [];
    } else {
      var first, rest := ItemLines(items[0], scope, refuses, indent).value, Lines(items[1..], scope, refuses, indent).value;
      var text, after := Unlines(first), Unlines(rest);
      assert Lines(items, scope, refuses, indent).value == first + rest;
      assert Unlines(first + rest) == text + after by { UnlinesConcat(first, rest); }
      FourJoined(w, text, after, v);
      var next := "\n" + (after + v);
      assert Parse(next) == Reparsed(items[1..], scope, refuses) by {
        LinesReparse(items[1..], scope, refuses, indent, "\n", v);
        Associative("\n", after, v);
      }
      assert Parse(w + text + (after + v)) == Then(ReparsedItem(items[0], scope, refuses), Parse(next)) by {
        ItemReparse(items[0], scope, refuses, indent, w, after + v);
      }
      ReparsedMore(items, scope, refuses);
    }
  }

  lemma {:induction false} ItemReparse(item: Item, scope: string, refuses: string -> bool, indent: string, w: string, rest: string)
    requires Formed(item) && PlainScope(scope) && Blank(indent) && Blank(w) && ItemLines(item, scope, refuses, indent).Ok?
    ensures Parse(w + Unlines(ItemLines(item, scope, refuses, indent).value) + rest) == Then(ReparsedItem(item, scope, refuses), Parse("\n" + rest))
    decreases item, 0
  {
    match item
    case Rule(prelude, body) =>
      var selectors := RuleSelectors(prelude, scope, refuses).value;
      RuleScoped(prelude, scope, refuses);
      ListedScoped(selectors, scope);
      BodyTextContained(body);
      RuleText(indent, selectors, body);
      PlacedBlock(w, indent, Listed(selectors), BodyText(body), rest);
    case Group(prelude, items) =>
      var inner := Lines(items, scope, refuses, indent + "  ").value;
      WrittenContained(items, scope, refuses, indent + "  ");
      GroupBodyContained(inner, indent);
      GroupText(prelude, inner, indent);
      PlacedBlock(w, indent, prelude, GroupBody(inner, indent), rest);
      LinesReparse(items, scope, refuses, indent + "  ", "\n", indent);
      assert AllFlat(items) == Flat(item) && ScopedItems(items, scope, refuses) == ScopedItem(item, scope, refuses).items;
  }

  lemma {:induction false} PlacedBlock(w: string, indent: string, prelude: string, body: string, rest: string)
    requires Blank(w) && Blank(indent) && Clean(prelude) && Trimmed(prelude) && Contained(body)
    ensures Parse(w + (indent + prelude + " " + ("{" + body + "}" + "\n")) + rest) == Then(ItemOf(prelude, body), Parse("\n" + rest))
  {
    assert w + (indent + prelude + " " + ("{" + body + "}" + "\n")) + rest == (w + indent) + prelude + " " + ("{" + body + "}" + ("\n" + rest));
    BlockParses(w + indent, prelude, body, "\n" + rest);
  }

  /**
   * Parsing the scoped stylesheet gives the same nesting and order, each rule under its scoped selectors,
   * exactly when no body shows a brace outside strings as it is written; otherwise it is refused as nested.
   */
  lemma {:induction false} ScopedReparses(css: string, scope: string, refuses: string -> bool)
    requires PlainScope(scope) && ScopedStylesheet(css, scope, refuses).Ok?
    ensures var items := Parse(Uncommented(css, Outside).value).value;
            Parse(ScopedStylesheet(css, scope, refuses).value) == Reparsed(items, scope, refuses)
  {
    TextReparses(Uncommented(css, Outside).value, scope, refuses);
  }

  lemma {:induction false} TextReparses(css: string, scope: string, refuses: string -> bool)
    requires PlainScope(scope) && Parse(css).Ok? && Lines(Parse(css).value, scope, refuses, "").Ok?
    ensures Parse(Stylesheet(Lines(Parse(css).value, scope, refuses, "").value)) == Reparsed(Parse(css).value, scope, refuses)
  {
    var items := Parse(css).value;
    var lines := Lines(items, scope, refuses, "").value;
    ParsedFormed(css);
    LinesReparse(items, scope, refuses, "", "", "");
    assert "" + Unlines(lines) + "" == Unlines(lines);
    if lines == [] {
      BlankParses("\n");
      NoLines(items, scope, refuses);
    }
  }

  lemma {:induction false} NoLines(items: seq<Item>, scope: string, refuses: string -> bool)
    requires Lines(items, scope, refuses, "").Ok?
    ensures Lines(items, scope, refuses, "").value == [] ==> items == []
  {
    assert items != [] ==> ItemLines(items[0], scope, refuses, "").value != [];
  }

  // ----- escaped line breaks ----------------------------------------------------------------

  /** No backslash inside a string is followed by a line break. */
  predicate Unbroken(t: string, q: Scan) {
    t == [] || (!(q.Escaped? && LineBreak(t[0])) && Unbroken(t[1..], Step(q, t[0])))
  }

  lemma {:induction false} UnbrokenConcat(a: string, b: string, q: Scan)
    ensures Unbroken(a + b, q) <==> Unbroken(a, q) && Unbroken(b, After(a, q))
  {
    if a == [] {
      assert a + b == b;
    } else {
      UnbrokenConcat(a[1..], b, Step(q, a[0]));
      assert (a + b)[1..] == a[1..] + b;
    }
  }

  lemma {:induction false} UnbreakUnbroken(t: string, q: Scan)
    requires Unbroken(t, q)
    ensures Unbroken(Unbreak(t), q)
    decreases |t|
  {
    if t != [] {
      if Space(t[0]) {
        var n := Run(t);
        var run, rest := t[..n], Unbreak(t[n..]);
        var kept := if '\n' in run then " " else run;
        assert Unbroken(run, q) && Unbroken(t[n..], After(run, q)) by {
          assert t == run + t[n..];
          UnbrokenConcat(run, t[n..], q);
        }
        assert After(kept, q) == After(run, q) by { BlankScan(run, q); BlankScan(kept, q); }
        UnbreakUnbroken(t[n..], After(run, q));
        assert Unbroken(kept, q);
        UnbrokenConcat(kept, rest, q);
      } else {
        UnbreakUnbroken(t[1..], Step(q, t[0]));
        assert ([t[0]] + Unbreak(t[1..]))[1..] == Unbreak(t[1..]);
      }
    }
  }

  lemma {:induction false} TrimUnbroken(t: string)
    requires Unbroken(t, Outside) && After(t, Outside) == Outside
    ensures Unbroken(Trim(t), Outside)
  {
    var lead, trail := TrimSplits(t);
    assert t == lead + (Trim(t) + trail);
    UnbrokenConcat(lead, Trim(t) + trail, Outside);
    BlankScan(lead, Outside);
    UnbrokenConcat(Trim(t), trail, Outside);
  }

  /** With no escaped line break, the string pattern ends where the scanner does. */
  lemma {:induction false} StringEndIs(t: string, quote: QuoteChar)
    requires Unbroken(t, Inside(quote)) && After(t, Inside(quote)) == Outside
    ensures StringEnd(t, quote).Some?
    ensures var e := StringEnd(t, quote).value;
            && 1 <= e <= |t| && Unbroken(t[e..], Outside) && After(t[e..], Outside) == Outside && Outer(t, Inside(quote)) == Outer(t[e..], Outside)
    decreases |t|
  {
    StringEndWithin(t, quote);
    if t[0] != quote {
      if t[0] == '\\' {
        assert t[1..][1..] == t[2..] && t[1..] != [] && t[1..][0] == t[1];
        StringEndIs(t[2..], quote);
        assert t[2..][StringEnd(t[2..], quote).value..] == t[StringEnd(t, quote).value..];
      } else {
        StringEndIs(t[1..], quote);
        assert t[1..][StringEnd(t[1..], quote).value..] == t[StringEnd(t, quote).value..];
      }
    }
  }

  /** With no escaped line break, a brace the string pattern leaves is one the scanner sees. */
  lemma {:induction false} BracesShown(t: string)
    requires Unbroken(t, Outside) && After(t, Outside) == Outside
    ensures '{' in WithoutStrings(t) <==> '{' in Outer(t, Outside)
    decreases |t|
  {
    if t != [] {
      if Quote(t[0]) {
        StringEndIs(t[1..], t[0]);
        var e := StringEnd(t[1..], t[0]).value;
        assert t[1..][e..] == t[1 + e..];
        BracesShown(t[1 + e..]);
      } else {
        BracesShown(t[1..]);
        assert '{' in WithoutStrings(t) <==> t[0] == '{' || '{' in WithoutStrings(t[1..]);
        assert '{' in Outer(t, Outside) <==> t[0] == '{' || '{' in Outer(t[1..], Outside) by {
          assert !Space('{');
        }
      }
    }
  }

  lemma {:induction false} UnbrokenFlat(body: string)
    requires Contained(body) && Unbroken(body, Outside) && '{' !in WithoutStrings(body)
    ensures '{' !in WithoutStrings(BodyText(body))
  {
    var inner := Unbreak(Trim(body));
    BracesShown(body);
    TrimScan(body);
    TrimUnbroken(body);
    UnbreakScan(Trim(body), Outside);
    UnbreakUnbroken(Trim(body), Outside);
    BodyTextContained(body);
    assert After(" ", Outside) == Outside && Outer(" ", Outside) == [];
    ScanConcat(" ", inner, Outside);
    ScanConcat(" " + inner, " ", Outside);
    UnbrokenConcat(" ", inner, Outside);
    UnbrokenConcat(" " + inner, " ", Outside);
    BracesShown(BodyText(body));
  }

  lemma {:induction false} ParsedFlat(css: string)
    requires Parse(css).Ok? && Unbroken(css, Outside)
    ensures AllFlat(Parse(css).value)
    decreases |css|, 1
  {
    HeadIs(css, Outside);
    if Head(css, Outside).Some? {
      var i := Head(css, Outside).value;
      assert css == css[..i] + css[i..];
      UnbrokenConcat(css[..i], css[i..], Outside);
      BracedFlat(Trim(css[..i]), css[i..]);
    }
  }

  lemma {:induction false} BracedFlat(prelude: string, t: string)
    requires t != [] && Brace(t[0]) && Braced(prelude, t).Ok? && Unbroken(t, Outside)
    ensures AllFlat(Braced(prelude, t).value)
    decreases |t|, 0
  {
    BodyContained(t);
    var n := BlockEnd(t, 0, Outside).value;
    var body := t[1..n - 1];
    assert t == "{" + body + ([t[n - 1]] + t[n..]);
    UnbrokenConcat("{" + body, [t[n - 1]] + t[n..], Outside);
    UnbrokenConcat("{", body, Outside);
    AfterConcat("{", body, Outside);
    assert ([t[n - 1]] + t[n..])[1..] == t[n..];
    LastBrace(t);
    if StartsWith(prelude, "@") { ParsedFlat(body); } else { UnbrokenFlat(body); }
    ParsedFlat(t[n..]);
  }

  /** A block ends at a closing brace. */
  lemma {:induction false} LastBrace(t: string)
    requires BlockEnd(t, 0, Outside).Some? && t[0] == '{'
    ensures 2 <= BlockEnd(t, 0, Outside).value <= |t| && t[BlockEnd(t, 0, Outside).value - 1] == '}'
  {
    BlockEndWithin(t, 0, Outside);
    EndsAtBrace(t[1..], 1, Outside);
  }

  lemma {:induction false} EndsAtBrace(t: string, depth: int, q: Scan)
    requires BlockEnd(t, depth, q).Some?
    ensures 1 <= BlockEnd(t, depth, q).value <= |t| && t[BlockEnd(t, depth, q).value - 1] == '}'
  {
    if !(q.Outside? && t[0] == '}' && depth == 1) {
      EndsAtBrace(t[1..], if q.Outside? && t[0] == '{' then depth + 1 else if q.Outside? && t[0] == '}' then depth - 1 else depth, Step(q, t[0]));
    }
  }

  /** Without an escaped line break in a string, the scoped stylesheet always parses again. */
  lemma {:induction false} UnbrokenReparses(css: string, scope: string, refuses: string -> bool)
    requires PlainScope(scope) && ScopedStylesheet(css, scope, refuses).Ok? && Unbroken(Uncommented(css, Outside).value, Outside)
    ensures var items := Parse(Uncommented(css, Outside).value).value;
            Parse(ScopedStylesheet(css, scope, refuses).value) == Ok(ScopedItems(items, scope, refuses))
  {
    ScopedReparses(css, scope, refuses);
    ParsedFlat(Uncommented(css, Outside).value);
  }

  lemma {:induction false} PlainText(t: string)
    requires forall i :: 0 <= i < |t| ==> !Quote(t[i]) && !Brace(t[i])
    ensures Clean(t)
  {
    if t != [] { PlainText(t[1..]); }
  }

  // ----- an escaped line break that hides a nested rule -----------------------------------------

  /** A string with an escaped line break, then an empty string in braces. */
  const BROKEN_BODY := ['"', '\\', '\n', '"', '{', '"', '"', '}']

  lemma {:induction false} BrokenContained()
    ensures Contained(BROKEN_BODY)
  {
    var b, quoted, esc := BROKEN_BODY, Inside('"'), Escaped('"');
    assert b[1..] == ['\\', '\n', '"', '{', '"', '"', '}'] && b[1..][1..] == b[2..] && b[2..][1..] == b[3..] && b[3..][1..] == b[4..];
    assert b[4..] == ['{', '"', '"', '}'] && b[4..][1..] == b[5..] && b[5..][1..] == b[6..] && b[6..][1..] == b[7..] && b[7..] == ['}'];
    assert After(b[7..], Outside) == Outside && Outer(b[7..], Outside) == "}";
    assert After(b[5..], Outside) == After(b[6..], quoted) == Outside && Outer(b[5..], Outside) == Outer(b[6..], quoted) == "}";
    assert After(b[4..], Outside) == Outside && Outer(b[4..], Outside) == "{}";
    assert After(b[2..], esc) == After(b[3..], quoted) == Outside && Outer(b[2..], esc) == Outer(b[3..], quoted) == "{}";
    assert After(b, Outside) == After(b[1..], quoted) == Outside && Outer(b, Outside) == Outer(b[1..], quoted) == "{}";
    assert "{}"[1..] == "}" && Level("}", 2) == Some(1);
  }

  /** A character that starts no string stays. */
  lemma {:induction false} Kept(c: char, t: string)
    requires Quote(c) ==> StringEnd(t, c).None?
    ensures WithoutStrings([c] + t) == [c] + WithoutStrings(t)
  {
    assert ([c] + t)[1..] == t;
  }

  /** A string is emptied. */
  lemma {:induction false} Emptied(c: char, t: string, n: nat)
    requires Quote(c) && StringEnd(t, c) == Some(n) && n <= |t|
    ensures WithoutStrings([c] + t) == ['"', '"'] + WithoutStrings(t[n..])
  {
    assert ([c] + t)[1..] == t && ([c] + t)[1 + n..] == t[n..];
  }

  /** The pattern for strings misses a string with an escaped line break, and takes the opening brace for part of the next. */
  lemma {:induction false} BraceHides(tail: string, b: string)
    requires '{' !in WithoutStrings(tail) && b == ['"'] + (['\\'] + (['\n'] + (['"'] + (['{'] + (['"'] + tail)))))
    ensures '{' !in WithoutStrings(b)
  {
    var hidden := ['{'] + (['"'] + tail);
    assert hidden[1..] == ['"'] + tail && hidden[1..][0] == '"' && hidden[2..] == tail;
    Emptied('"', hidden, 2);
    var line := ['\n'] + (['"'] + hidden);
    Kept('\n', ['"'] + hidden);
    Kept('\\', line);
    var escape := ['\\'] + line;
    assert escape[1] == line[0] == '\n';
    Kept('"', escape);
  }

  lemma {:induction false} BrokenHides()
    ensures '{' !in WithoutStrings(BROKEN_BODY)
  {
    UnendedKept();
    BraceHides(['"', '}'], BROKEN_BODY);
  }

  /** A quote without an end stays. */
  lemma {:induction false} UnendedKept()
    ensures WithoutStrings(['"', '}']) == ['"', '}']
  {
    var brace := ['}'];
    assert brace[1..] == [] && brace == ['}'] + [];
    Kept('}', []);
    Kept('"', brace);
    assert ['"'] + brace == ['"', '}'];
  }

  lemma {:induction false} UnbreakKept(c: char, t: string)
    requires !Space(c)
    ensures Unbreak([c] + t) == [c] + Unbreak(t)
  {
    assert ([c] + t)[1..] == t;
  }

  lemma {:induction false} BreakSpaced(t: string)
    requires t == [] || !Space(t[0])
    ensures Unbreak(['\n'] + t) == [' '] + Unbreak(t)
  {
    var line := ['\n'] + t;
    assert line[1..] == t && Run(t) == 0 && Run(line) == 1 && line[..1] == ['\n'] && line[0] in line[..1];
  }

  lemma {:induction false} BrokenText(shown: string, b: string)
    requires (forall i :: 0 <= i < |shown| ==> !Space(shown[i])) && b == ['"'] + (['\\'] + (['\n'] + shown))
    ensures Unbreak(b) == ['"'] + (['\\'] + ([' '] + shown))
  {
    UnspacedUnbreak(shown);
    BreakSpaced(shown);
    UnbreakKept('\\', ['\n'] + shown);
    UnbreakKept('"', ['\\'] + (['\n'] + shown));
  }

  /** The string with its line break written as a space, and what follows it. */
  lemma {:induction false} FirstEmptied(rest: string)
    ensures WithoutStrings([' '] + (['"'] + (['\\'] + ([' '] + (['"'] + rest))))) == [' '] + (['"', '"'] + WithoutStrings(rest))
  {
    var u := ['\\'] + ([' '] + (['"'] + rest));
    assert u[1] == ' ' && u[2..] == ['"'] + rest && u[2..][0] == '"' && u[3..] == rest;
    Emptied('"', u, 3);
    Kept(' ', ['"'] + u);
  }

  /** Written out, the line break is a space: the pattern takes the first string, and shows the brace. */
  lemma {:induction false} BraceShows(nested: string, b: string)
    requires nested != [] && nested[0] == '{' && Trimmed(b) && forall i :: 0 <= i < |nested| ==> !Space(nested[i])
    requires b == ['"'] + (['\\'] + (['\n'] + (['"'] + nested)))
    ensures '{' in WithoutStrings(BodyText(b))
  {
    assert Trim(b) == b by {
      TrimPadded("", b, "");
      assert "" + b + "" == b;
    }
    BrokenText(['"'] + nested, b);
    var rest := nested + [' '];
    assert BodyText(b) == [' '] + (['"'] + (['\\'] + ([' '] + (['"'] + rest))));
    FirstEmptied(rest);
    Kept('{', rest[1..]);
    assert rest == ['{'] + rest[1..];
  }

  lemma {:induction false} BrokenShows()
    ensures '{' in WithoutStrings(BodyText(BROKEN_BODY))
  {
    BraceShows(['{', '"', '"', '}'], BROKEN_BODY);
  }

  lemma {:induction false} UnspacedUnbreak(t: string)
    requires forall c <- t :: !Space(c)
    ensures Unbreak(t) == t
  {
    if t != [] {
      assert t[0] in t && forall c <- t[1..] :: c in t;
      UnspacedUnbreak(t[1..]);
    }
  }

  /** A stylesheet of one rule. */
  function OneRule(body: string): string {
    "a" + " " + ("{" + body + "}" + "")
  }

  lemma {:induction false} OneRuleParses(body: string)
    requires Contained(body) && '{' !in WithoutStrings(body)
    ensures Parse(OneRule(body)) == Ok([Rule("a", body)])
  {
    BlankParses("");
    PlainText("a");
    BlockParses("", "a", body, "");
    assert OneRule(body) == "" + "a" + " " + ("{" + body + "}" + "");
    var item := Rule("a", body);
    assert [item] + [] == [item];
  }

  lemma {:induction false} OneRuleLines(body: string, scope: string, refuses: string -> bool)
    requires PlainScope(scope) && !refuses("a")
    ensures Lines([Rule("a", body)], scope, refuses, "").Ok?
  {
    var items := [Rule("a", body)];
    AlphaSelectors(scope, refuses);
    assert items[1..] == [] && Lines([], scope, refuses, "") == Ok([]);
  }

  lemma {:induction false} OneRuleRefused(body: string, scope: string, refuses: string -> bool)
    requires Contained(body) && '{' !in WithoutStrings(body) && '{' in WithoutStrings(BodyText(body)) && !refuses("a")
    requires PlainScope(scope)
    ensures var css := OneRule(body);
            && Parse(css) == Ok([Rule("a", body)]) && Lines([Rule("a", body)], scope, refuses, "").Ok?
            && Parse(Stylesheet(Lines([Rule("a", body)], scope, refuses, "").value)) == Err(NestedRule)
  {
    OneRuleParses(body);
    OneRuleLines(body, scope, refuses);
    assert !Flat([Rule("a", body)][0]);
    TextReparses(OneRule(body), scope, refuses);
  }

  lemma {:induction false} NoComments(t: string, q: Scan)
    requires After(t, q) == Outside && forall i :: 0 <= i < |t| ==> t[i] != '/'
    ensures Uncommented(t, q) == Ok(t)
  {
    if t != [] {
      NoComments(t[1..], Step(q, t[0]));
      assert [t[0]] + t[1..] == t;
    }
  }

  /** An accepted stylesheet whose scoped form is refused: the line break hid a nested rule. */
  lemma {:induction false} BrokenRefused(scope: string, refuses: string -> bool)
    requires PlainScope(scope) && !refuses("a")
    ensures ScopedStylesheet(OneRule(BROKEN_BODY), scope, refuses).Ok?
    ensures Parse(ScopedStylesheet(OneRule(BROKEN_BODY), scope, refuses).value) == Err(NestedRule)
  {
    BrokenContained();
    BrokenHides();
    BrokenShows();
    BrokenUncommented(BROKEN_BODY);
    OneRuleRefused(BROKEN_BODY, scope, refuses);
  }

  lemma {:induction false} BrokenUncommented(body: string)
    requires Contained(body) && forall i :: 0 <= i < |body| ==> body[i] != '/'
    ensures Uncommented(OneRule(body), Outside) == Ok(OneRule(body))
  {
    PlainText("a");
    BlankClean(" ");
    CleanConcat("a", " ");
    BlockContained(body);
    var head, block := "a" + " ", "{" + body + "}" + "";
    assert block == "{" + body + "}" && OneRule(body) == head + block;
    AfterConcat(head, block, Outside);
    NoComments(OneRule(body), Outside);
  }

  lemma {:induction false} LetterSplit(a: string)
    requires |a| == 1 && 'a' <= a[0] <= 'z'
    ensures SplitFrom(a, 0, 0, 0, Outside) == Some([a])
  {
    assert a[0..] == a;
    assert SplitFrom(a, 0, 1, 0, Outside) == Some([a]);
  }

  lemma {:induction false} LetterNormal(a: string)
    requires |a| == 1 && 'a' <= a[0] <= 'z'
    ensures NormalizedAll([a]) == [a]
  {
    TrimPadded("", a, "");
    assert "" + a + "" == a;
    assert a[1..] == [] && Collapse(a, false) == a;
  }

  lemma {:induction false} AlphaSplit()
    ensures SplitFrom("a", 0, 0, 0, Outside) == Some(["a"]) && NormalizedAll(["a"]) == ["a"]
  {
    LetterSplit("a");
    LetterNormal("a");
  }

  lemma {:induction false} AlphaEach(scope: string, refuses: string -> bool)
    requires !refuses("a")
    ensures ScopeEach(["a"], scope, refuses).Ok?
  {
    assert ["a"][..0] == [] && ScopeEach([], scope, refuses) == Ok([]);
    assert ScopeSelector("a", scope, refuses).Ok?;
  }

  lemma {:induction false} AlphaSelectors(scope: string, refuses: string -> bool)
    requires PlainScope(scope) && !refuses("a")
    ensures RuleSelectors("a", scope, refuses).Ok?
  {
    AlphaSplit();
    AlphaEach(scope, refuses);
    AlphaChecked(scope, refuses, ScopeEach(["a"], scope, refuses).value);
  }

  lemma {:induction false} AlphaChecked(scope: string, refuses: string -> bool, all: seq<string>)
    requires PlainScope(scope) && ScopeEach(["a"], scope, refuses) == Ok(all)
    ensures forall s <- Distinct(all) :: InScope(s, scope)
  {
    PlainText("a");
    EachScoped(["a"], scope, refuses);
    DistinctIs(all);
  }
}
