/** A rule's scoped selectors, written as one list, split again into exactly those selectors. */
module ScopeCssSelectors {
  import opened Wrappers
  import opened ScopeCss
  import opened ScopeCssScans
  import opened ScopeCssReparse

  // ----- brackets -----------------------------------------------------------------------

  /** The bracket depth after the characters, or None at a closing bracket too many or a comma outside brackets. */
  function Nest(o: string, depth: nat): Option<nat> {
    if o == [] then Some(depth)
    else if o[0] == '(' || o[0] == '[' then Nest(o[1..], depth + 1)
    else if o[0] == ')' || o[0] == ']' then if depth == 0 then None else Nest(o[1..], depth - 1)
    else if o[0] == ',' && depth == 0 then None
    else Nest(o[1..], depth)
  }

  /** One selector: brackets and strings balance, and no comma separates anything. */
  predicate Solo(t: string) {
    After(t, Outside) == Outside && Nest(Outer(t, Outside), 0) == Some(0)
  }

  lemma {:induction false} NestConcat(a: string, b: string, depth: nat)
    ensures Nest(a + b, depth) == if Nest(a, depth).None? then None else Nest(b, Nest(a, depth).value)
  {
    if a == [] {
      assert a + b == b;
    } else {
      assert (a + b)[1..] == a[1..] + b && (a + b)[0] == a[0];
      NestConcat(a[1..], b, depth + 1);
      NestConcat(a[1..], b, depth);
      if depth > 0 { NestConcat(a[1..], b, depth - 1); }
    }
  }

  lemma {:induction false} SoloConcat(a: string, b: string)
    requires Solo(a) && Solo(b)
    ensures Solo(a + b)
  {
    ScanConcat(a, b, Outside);
    NestConcat(Outer(a, Outside), Outer(b, Outside), 0);
  }

  lemma {:induction false} BlankSolo(t: string)
    requires Blank(t)
    ensures Solo(t)
  {
    BlankScan(t, Outside);
  }

  /** What is left of one selector when a front that is one itself is taken off. */
  lemma {:induction false} SoloRest(a: string, b: string)
    requires Solo(a) && Solo(a + b)
    ensures Solo(b)
  {
    ScanConcat(a, b, Outside);
    NestConcat(Outer(a, Outside), Outer(b, Outside), 0);
  }

  /** The depth after one more character, as the splitting loop keeps it. */
  lemma {:induction false} NestStep(t: string, depth: nat, q: Scan)
    requires t != []
    ensures var o, rest := Outer(t, q), Outer(t[1..], Step(q, t[0]));
            Nest(o, depth) ==
            if !q.Outside? then Nest(rest, depth)
            else if t[0] == '(' || t[0] == '[' then Nest(rest, depth + 1)
            else if t[0] == ')' || t[0] == ']' then if depth == 0 then None else Nest(rest, depth - 1)
            else if t[0] == ',' && depth == 0 then None
            else Nest(rest, depth)
  {
    var o, rest := Outer(t, q), Outer(t[1..], Step(q, t[0]));
    if q.Outside? && !Quote(t[0]) && !Space(t[0]) {
      assert o[0] == t[0] && o[1..] == rest;
    } else {
      assert o == rest;
    }
  }

  // ----- splitting ----------------------------------------------------------------------------

  /** The splitting loop runs over a text without a separating comma. */
  lemma {:induction false} SplitPast(t: string, start: nat, i: nat, n: nat, depth: nat, q: Scan)
    requires start <= i <= i + n <= |t| && Nest(Outer(t[i..i + n], q), depth).Some?
    ensures SplitFrom(t, start, i, depth, q) == SplitFrom(t, start, i + n, Nest(Outer(t[i..i + n], q), depth).value, After(t[i..i + n], q))
    decreases n
  {
    if n > 0 {
      var part := t[i..i + n];
      assert part[0] == t[i] && part[1..] == t[i + 1..i + n];
      NestStep(part, depth, q);
      var deeper := if q.Outside? && (t[i] == '(' || t[i] == '[') then depth + 1 else if q.Outside? && (t[i] == ')' || t[i] == ']') then depth - 1 else depth;
      SplitPast(t, start, i + 1, n - 1, deeper, Step(q, t[i]));
      assert t[i + 1..i + 1 + (n - 1)] == part[1..];
    }
  }

  /** Every part of a split is one selector. */
  lemma {:induction false} SplitSolo(t: string, start: nat, i: nat, depth: nat, q: Scan)
    requires start <= i <= |t| && q == After(t[start..i], Outside) && Nest(Outer(t[start..i], Outside), 0) == Some(depth)
    requires SplitFrom(t, start, i, depth, q).Some?
    ensures forall part <- SplitFrom(t, start, i, depth, q).value :: Solo(part)
    decreases |t| - i
  {
    if i == |t| {
      assert t[start..i] == t[start..];
    } else if q.Outside? && t[i] == ',' && depth == 0 {
      assert t[i + 1..i + 1] == [];
      SplitSolo(t, i + 1, i + 1, 0, Outside);
    } else {
      var done, c := t[start..i], t[i];
      assert t[start..i + 1] == done + [c];
      ScanConcat(done, [c], Outside);
      NestConcat(Outer(done, Outside), Outer([c], q), 0);
      NestStep([c], depth, q);
      assert [c][1..] == [] && Outer([c][1..], Step(q, c)) == [];
      var deeper := if q.Outside? && (c == '(' || c == '[') then depth + 1 else if q.Outside? && (c == ')' || c == ']') then depth - 1 else depth;
      assert Nest(Outer([c], q), depth) == Some(deeper);
      SplitSolo(t, start, i + 1, deeper, Step(q, c));
    }
  }

  /** Parts with commas between them. */
  function Commas(parts: seq<string>): string
    requires parts != []
  {
    if |parts| == 1 then parts[0] else parts[0] + "," + Commas(parts[1..])
  }

  lemma {:induction false} SplitCommas(t: string, start: nat, parts: seq<string>)
    requires parts != [] && start <= |t| && t[start..] == Commas(parts) && forall part <- parts :: Solo(part)
    ensures SplitFrom(t, start, start, 0, Outside) == Some(parts)
    decreases |parts|
  {
    var first := parts[0];
    var end := start + |first|;
    assert first in parts;
    assert t[start..][..|first|] == first;
    assert t[start..end] == first;
    SplitPast(t, start, start, |first|, 0, Outside);
    if |parts| == 1 {
      assert parts == [first];
    } else {
      assert t[start..][|first|] == ',' && t[start..][|first| + 1..] == Commas(parts[1..]);
      assert t[end] == ',' && t[end + 1..] == t[start..][|first| + 1..];
      SplitCommas(t, end + 1, parts[1..]);
      assert parts == [first] + parts[1..];
    }
  }

  lemma {:induction false} CommasWith(parts: seq<string>, last: string)
    requires parts != []
    ensures Commas(parts + [last]) == Commas(parts) + "," + last
  {
    if |parts| > 1 {
      CommasWith(parts[1..], last);
      assert (parts + [last])[1..] == parts[1..] + [last];
    } else {
      assert (parts + [last])[1..] == [last];
    }
  }

  /** The parts a written list splits into: after the first, each still has the space after its comma. */
  function Spaced(selectors: seq<string>): seq<string> {
    seq(|selectors|, i requires 0 <= i < |selectors| => if i == 0 then selectors[0] else " " + selectors[i])
  }

  lemma {:induction false} ListedIsCommas(selectors: seq<string>)
    requires selectors != []
    ensures Listed(selectors) == Commas(Spaced(selectors))
  {
    if |selectors| > 1 {
      var init, last := selectors[..|selectors| - 1], selectors[|selectors| - 1];
      ListedIsCommas(init);
      CommasWith(Spaced(init), " " + last);
      assert Spaced(selectors) == Spaced(init) + [" " + last];
      assert Listed(init) + ", " + last == Listed(init) + "," + (" " + last);
    }
  }

  // ----- white space -----------------------------------------------------------------------------

  /** White space is single spaces. */
  predicate Tidy(t: string) {
    forall i :: 0 <= i < |t| && Space(t[i]) ==> t[i] == ' ' && (i + 1 < |t| ==> !Space(t[i + 1]))
  }

  lemma {:induction false} CollapseTidy(t: string, running: bool)
    ensures Tidy(Collapse(t, running)) && (running && Collapse(t, running) != [] ==> !Space(Collapse(t, running)[0]))
  {
    if t != [] { CollapseTidy(t[1..], Space(t[0])); }
  }

  lemma {:induction false} TidyCollapse(t: string, running: bool)
    requires Tidy(t) && (running && t != [] ==> !Space(t[0]))
    ensures Collapse(t, running) == t
  {
    if t != [] {
      TidyCollapse(t[1..], Space(t[0]));
      assert t == [t[0]] + t[1..];
    }
  }

  lemma {:induction false} TrimTidy(t: string)
    requires Tidy(t)
    ensures Tidy(Trim(t))
  {
    var lead, trail := TrimSplits(t);
    forall i | 0 <= i < |Trim(t)| ensures Trim(t)[i] == t[|lead| + i] {}
  }

  lemma {:induction false} UnderTidy(a: string, b: string)
    requires Tidy(a) && Tidy(b) && Trimmed(a) && Trimmed(b)
    ensures Tidy(a + " " + b)
  {
  }

  // ----- scoped selectors ---------------------------------------------------------------------------

  /** A selector as the list holds it. */
  predicate Single(s: string) {
    Solo(s) && Tidy(s)
  }

  lemma {:induction false} NormalizedSingle(part: string)
    requires Solo(part)
    ensures Single(Collapse(Trim(part), false))
  {
    TrimScan(part);
    CollapseScan(Trim(part), false, Outside);
    CollapseTidy(Trim(part), false);
  }

  lemma {:induction false} LoweredSolo(t: string)
    requires forall c <- LowerAll(t) :: c == ':' || 'a' <= c <= 'z'
    ensures Solo(t)
  {
    if t != [] {
      var lowered := LowerAll(t);
      assert lowered[0] == Lower(t[0]) && lowered[1..] == LowerAll(t[1..]);
      assert lowered[0] in lowered && forall c <- lowered[1..] :: c in lowered;
      LoweredSolo(t[1..]);
      NestStep(t, 0, Outside);
    }
  }

  lemma {:induction false} AfterLeadingSingle(s: string)
    requires Single(s)
    ensures Single(s[LeadingLength(s)..])
  {
    var n := LeadingLength(s);
    assert s == s[..n] + s[n..];
    if n > 0 {
      assert LowerAll(s[..n]) == "html" || LowerAll(s[..n]) == "body" || LowerAll(s[..n]) == ":root";
      LoweredSolo(s[..n]);
      SoloRest(s[..n], s[n..]);
    } else {
      assert s[n..] == s;
    }
  }

  lemma {:induction false} UnderSingle(scope: string, rest: string)
    requires Single(scope) && Single(rest) && Trimmed(scope) && Trimmed(rest)
    ensures Single(scope + " " + rest)
  {
    BlankSolo(" ");
    SoloConcat(scope, " ");
    SoloConcat(scope + " ", rest);
    UnderTidy(scope, rest);
  }

  lemma {:induction false} SelectorSingle(selector: string, scope: string, refuses: string -> bool)
    requires Single(scope) && Trimmed(scope) && Single(selector) && (selector == [] || Trimmed(selector)) && ScopeSelector(selector, scope, refuses).Ok?
    ensures forall s <- ScopeSelector(selector, scope, refuses).value :: Single(s)
  {
    if selector == "*" {
      UnderSingle(scope, selector);
      assert scope + " *" == scope + " " + selector;
    } else {
      var n := LeadingLength(selector);
      AfterLeadingSingle(selector);
      TrimScan(selector[n..]);
      TrimTidy(selector[n..]);
      var lead, trail := TrimSplits(selector[n..]);
      var rest := if n == 0 then selector else Trim(selector[n..]);
      if rest != [] { UnderSingle(scope, rest); }
    }
  }

  lemma {:induction false} EachSingle(selectors: seq<string>, scope: string, refuses: string -> bool)
    requires Single(scope) && Trimmed(scope) && ScopeEach(selectors, scope, refuses).Ok?
    requires forall s <- selectors :: Single(s) && (s == [] || Trimmed(s))
    ensures forall s <- ScopeEach(selectors, scope, refuses).value :: Single(s)
  {
    if selectors != [] {
      var init, last := selectors[..|selectors| - 1], selectors[|selectors| - 1];
      EachSingle(init, scope, refuses);
      SelectorSingle(last, scope, refuses);
    }
  }

  lemma {:induction false} RuleSingle(prelude: string, scope: string, refuses: string -> bool)
    requires PlainScope(scope) && Single(scope) && Clean(prelude) && RuleSelectors(prelude, scope, refuses).Ok?
    ensures forall s <- RuleSelectors(prelude, scope, refuses).value :: Single(s)
  {
    var parts := SplitFrom(prelude, 0, 0, 0, Outside).value;
    assert prelude[0..0] == [] && prelude[0..] == prelude;
    SplitSolo(prelude, 0, 0, 0, Outside);
    SplitClean(prelude, 0, 0, 0, Outside);
    var normal := NormalizedAll(parts);
    forall s <- normal ensures Single(s) && (s == [] || Trimmed(s)) {
      var i :| 0 <= i < |normal| && normal[i] == s;
      NormalizedSingle(parts[i]);
      NormalizedClean(parts[i]);
    }
    EachSingle(normal, scope, refuses);
    DistinctIs(ScopeEach(normal, scope, refuses).value);
  }

  lemma {:induction false} SpacedNormal(selectors: seq<string>)
    requires forall s <- selectors :: Single(s) && Trimmed(s)
    ensures NormalizedAll(Spaced(selectors)) == selectors
    ensures forall part <- Spaced(selectors) :: Solo(part)
  {
    var parts := Spaced(selectors);
    forall i | 0 <= i < |selectors| ensures Collapse(Trim(parts[i]), false) == selectors[i] && Solo(parts[i]) {
      var s, lead := selectors[i], if i == 0 then "" else " ";
      assert s in selectors && parts[i] == lead + s && lead + s == lead + s + "";
      TrimPadded(lead, s, "");
      TidyCollapse(s, false);
      BlankSolo(lead);
      SoloConcat(lead, s);
    }
  }

  /** Under a scope with balanced brackets, the written list of a rule's selectors splits into exactly those selectors, in order. */
  lemma {:induction false} SelectorsReturn(prelude: string, scope: string, refuses: string -> bool)
    requires PlainScope(scope) && Single(scope) && Clean(prelude) && RuleSelectors(prelude, scope, refuses).Ok?
    ensures var selectors := RuleSelectors(prelude, scope, refuses).value;
            var split := SplitFrom(Listed(selectors), 0, 0, 0, Outside);
            split.Some? && NormalizedAll(split.value) == selectors
  {
    var selectors := RuleSelectors(prelude, scope, refuses).value;
    RuleScoped(prelude, scope, refuses);
    RuleSingle(prelude, scope, refuses);
    SpacedNormal(selectors);
    ListedIsCommas(selectors);
    var text := Listed(selectors);
    assert text[0..] == text;
    SplitCommas(text, 0, Spaced(selectors));
  }

  // ----- the mount's scope ----------------------------------------------------------------------------

  const HOST_SCOPE := "[data-streamotter-workbench]"

  predicate AttributeName(t: string) {
    forall i :: 0 <= i < |t| ==> t[i] == '-' || 'a' <= t[i] <= 'z'
  }

  /** The mount's own scope meets both conditions on a scope. */
  lemma {:induction false} HostScopeBalanced()
    ensures PlainScope(HOST_SCOPE) && Single(HOST_SCOPE)
  {
    var name := "data-streamotter-workbench";
    assert AttributeName(name);
    assert HOST_SCOPE == "[" + name + "]";
    AttributeScope(name);
  }

  /** So does any attribute selector of a plain name. */
  lemma {:induction false} AttributeScope(name: string)
    requires AttributeName(name)
    ensures PlainScope("[" + name + "]") && Single("[" + name + "]")
  {
    PlainText("[" + name + "]");
    LettersScan(name, 1);
    BracketedSolo(name);
  }

  lemma {:induction false} BracketedSolo(name: string)
    requires After(name, Outside) == Outside && Nest(Outer(name, Outside), 1) == Some(1)
    ensures Solo("[" + name + "]")
  {
    ScanAround('[', name, ']');
    NestAround(Outer(name, Outside));
  }

  lemma {:induction false} NestAround(o: string)
    requires Nest(o, 1) == Some(1)
    ensures Nest("[" + o + "]", 0) == Some(0)
  {
    assert ("[" + o + "]")[1..] == o + "]";
    NestConcat(o, "]", 1);
    assert Nest("]", 1) == Some(0);
  }

  lemma {:induction false} LettersScan(t: string, depth: nat)
    requires depth > 0 && AttributeName(t)
    ensures After(t, Outside) == Outside && Nest(Outer(t, Outside), depth) == Some(depth)
  {
    if t != [] {
      LettersScan(t[1..], depth);
      NestStep(t, depth, Outside);
    }
  }
}
