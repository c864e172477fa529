/**
 * Where a selector goes: below the scope, with a leading document root replaced by it. The split into
 * selectors, the white space and the order of the list are said without the scanning loops.
 */
module ScopeCssPlacement {
  import opened Wrappers
  import opened ScopeCss
  import opened ScopeCssScans
  import opened ScopeCssReparse
  import opened ScopeCssSelectors

  // ----- the split ------------------------------------------------------------------------

  lemma {:induction false} SplitJoins(t: string, start: nat, i: nat, depth: nat, q: Scan)
    requires start <= i <= |t| && SplitFrom(t, start, i, depth, q).Some?
    ensures var parts := SplitFrom(t, start, i, depth, q).value; parts != [] && Commas(parts) == t[start..]
    decreases |t| - i
  {
    if i < |t| {
      if q.Outside? && t[i] == ',' && depth == 0 {
        SplitJoins(t, i + 1, i + 1, 0, q);
        var rest := SplitFrom(t, i + 1, i + 1, 0, q).value;
        assert ([t[start..i]] + rest)[1..] == rest;
        assert t[start..] == t[start..i] + "," + t[i + 1..];
      } else {
        var deeper := if q.Outside? && (t[i] == '(' || t[i] == '[') then depth + 1 else if q.Outside? && (t[i] == ')' || t[i] == ']') then depth - 1 else depth;
        SplitJoins(t, start, i + 1, deeper, Step(q, t[i]));
      }
    }
  }

  /** A list splits into these parts exactly when they are single selectors and it is they with commas between them. */
  lemma {:induction false} SplitsExactly(t: string, parts: seq<string>)
    ensures SplitFrom(t, 0, 0, 0, Outside) == Some(parts) <==> parts != [] && (forall part <- parts :: Solo(part)) && t == Commas(parts)
  {
    assert t[0..0] == [] && t[0..] == t;
    if SplitFrom(t, 0, 0, 0, Outside) == Some(parts) {
      SplitSolo(t, 0, 0, 0, Outside);
      SplitJoins(t, 0, 0, 0, Outside);
    }
    if parts != [] && (forall part <- parts :: Solo(part)) && t == Commas(parts) { SplitCommas(t, 0, parts); }
  }

  // ----- white space -------------------------------------------------------------------------

  predicate SolidStart(t: string) {
    t == [] || !Space(t[0])
  }

  lemma {:induction false} CollapseRest(w: string, b: string)
    requires Blank(w) && SolidStart(b)
    ensures Collapse(w + b, true) == Collapse(b, false)
  {
    if w == [] {
      assert w + b == b;
    } else {
      assert (w + b)[0] == w[0] && (w + b)[1..] == w[1..] + b;
      CollapseRest(w[1..], b);
    }
  }

  lemma {:induction false} JoinedTail(a: string, w: string, b: string)
    requires a != []
    ensures (a + w + b)[0] == a[0] && (a + w + b)[1..] == a[1..] + w + b
  {
  }

  lemma {:induction false} Fronted(a: string, x: string, y: string)
    requires a != []
    ensures [a[0]] + (a[1..] + x + y) == a + x + y && [a[0]] + a[1..] == a
  {
  }

  lemma {:induction false} Behind(x: string, y: string)
    ensures [] + x + y == x + y
  {
  }

  lemma {:induction false} Solid(a: string)
    requires a != [] && forall c <- a :: !Space(c)
    ensures !Space(a[0]) && forall c <- a[1..] :: !Space(c)
  {
    assert a[0] in a;
    forall c <- a[1..] ensures !Space(c) { assert c in a; }
  }

  lemma {:induction false} CollapseFirst(w: string, b: string)
    requires w != [] && Blank(w) && SolidStart(b)
    ensures Collapse(w + b, false) == " " + Collapse(b, false)
  {
    assert (w + b)[0] == w[0] && (w + b)[1..] == w[1..] + b;
    assert w[0] in w && forall c <- w[1..] :: c in w;
    CollapseRest(w[1..], b);
  }

  /** A run of white space between other characters becomes one space, and what has none stays as it is. */
  lemma {:induction false} CollapseRun(a: string, w: string, b: string)
    requires (forall c <- a :: !Space(c)) && w != [] && Blank(w) && SolidStart(b)
    ensures Collapse(a, false) == a && Collapse(a + w + b, false) == a + " " + Collapse(b, false)
  {
    if a == [] {
      assert a + w + b == w + b;
      CollapseFirst(w, b);
      Behind(" ", Collapse(b, false));
    } else {
      Solid(a);
      CollapseRun(a[1..], w, b);
      JoinedTail(a, w, b);
      Fronted(a, " ", Collapse(b, false));
    }
  }

  lemma {:induction false} RunOf(w: string, b: string)
    requires Blank(w) && SolidStart(b)
    ensures ScopeCss.Run(w + b) == |w|
  {
    if w == [] {
      assert w + b == b;
    } else {
      assert (w + b)[0] == w[0] && (w + b)[1..] == w[1..] + b;
      RunOf(w[1..], b);
    }
  }

  lemma {:induction false} UnbreakFirst(w: string, b: string)
    requires w != [] && Blank(w) && SolidStart(b)
    ensures Unbreak(w + b) == (if '\n' in w then " " else w) + Unbreak(b)
  {
    var t := w + b;
    RunOf(w, b);
    assert t[0] == w[0] && w[0] in w && t[..|w|] == w && t[|w|..] == b;
  }

  /** In a body a run of white space becomes one space when it holds a line feed, and stays as it is otherwise. */
  lemma {:induction false} UnbreakRun(a: string, w: string, b: string)
    requires (forall c <- a :: !Space(c)) && w != [] && Blank(w) && SolidStart(b)
    ensures Unbreak(a) == a && Unbreak(a + w + b) == a + (if '\n' in w then " " else w) + Unbreak(b)
  {
    var space := if '\n' in w then " " else w;
    if a == [] {
      assert a + w + b == w + b;
      UnbreakFirst(w, b);
      Behind(space, Unbreak(b));
    } else {
      Solid(a);
      UnbreakRun(a[1..], w, b);
      JoinedTail(a, w, b);
      UnbreakSolid(a);
      UnbreakSolid(a + w + b);
      Fronted(a, space, Unbreak(b));
    }
  }

  lemma {:induction false} UnbreakSolid(t: string)
    requires t != [] && !Space(t[0])
    ensures Unbreak(t) == [t[0]] + Unbreak(t[1..])
  {
  }

  // ----- one selector ---------------------------------------------------------------------------

  /** The text is the name, in capitals or small letters. */
  predicate Spells(text: string, name: string) {
    && |text| == |name|
    && forall i :: 0 <= i < |name| ==> text[i] == name[i] || ('a' <= name[i] <= 'z' && text[i] as int == name[i] as int - 32)
  }

  /** The selector starts with the name as a whole word. */
  predicate StartsAt(selector: string, name: string) {
    |name| <= |selector| && Spells(selector[..|name|], name) && (|selector| == |name| || Space(selector[|name|]))
  }

  /** What is left of a selector past a leading html, body or :root; None when it has none of them. */
  function PastRoot(selector: string): Option<string> {
    if StartsAt(selector, "html") || StartsAt(selector, "body") then Some(Trim(selector[4..]))
    else if StartsAt(selector, ":root") then Some(Trim(selector[5..]))
    else None
  }

  predicate Combinator(c: char) {
    c == '>' || c == '+' || c == '~'
  }

  /** The selector can be placed; `refuses` says which could match outside the scope. */
  predicate Placeable(selector: string, refuses: string -> bool) {
    && selector != "" && !Combinator(selector[0])
    && (selector == "*" || !refuses(if PastRoot(selector).Some? then PastRoot(selector).value else selector))
  }

  /** Below the scope; a leading root is the scope itself, and * is the scope and everything in it. */
  function Placed(selector: string, scope: string): seq<string> {
    if selector == "*" then [scope, scope + " *"]
    else
      match PastRoot(selector)
      case None => [scope + " " + selector]
      case Some(rest) => [if rest == "" then scope else scope + " " + rest]
  }

  lemma {:induction false} LowerSpells(text: string, name: string)
    requires forall c <- name :: c == ':' || 'a' <= c <= 'z'
    ensures LowerAll(text) == name <==> Spells(text, name)
  {
    if text != [] && name != [] {
      assert name[0] in name && forall c <- name[1..] :: c in name;
      LowerSpells(text[1..], name[1..]);
      LowerHead(text, name);
      SpellsHead(text, name);
    }
  }

  lemma {:induction false} LowerHead(text: string, name: string)
    requires text != [] && name != []
    ensures LowerAll(text) == name <==> Lower(text[0]) == name[0] && LowerAll(text[1..]) == name[1..]
  {
    assert name == [name[0]] + name[1..];
    assert LowerAll(text)[0] == Lower(text[0]) && LowerAll(text)[1..] == LowerAll(text[1..]);
  }

  lemma {:induction false} SpellsHead(text: string, name: string)
    requires text != [] && name != []
    ensures Spells(text, name) <==> Spells([text[0]], [name[0]]) && Spells(text[1..], name[1..])
  {
    if Spells([text[0]], [name[0]]) && Spells(text[1..], name[1..]) {
      forall i | 0 <= i < |name| ensures text[i] == name[i] || ('a' <= name[i] <= 'z' && text[i] as int == name[i] as int - 32) {
        if i > 0 { assert text[i] == text[1..][i - 1] && name[i] == name[1..][i - 1]; } else { assert [text[0]][0] == text[0]; }
      }
    }
    if Spells(text, name) {
      forall i | 0 <= i < |name| - 1 ensures text[1..][i] == text[i + 1] && name[1..][i] == name[i + 1] {}
    }
  }

  lemma {:induction false} LeadsWhere(selector: string, name: string)
    requires forall c <- name :: c == ':' || 'a' <= c <= 'z'
    ensures Leads(selector, name) <==> StartsAt(selector, name)
  {
    if |name| <= |selector| { LowerSpells(selector[..|name|], name); }
  }

  /** A selector is placed exactly when it can be, and then below the scope. */
  lemma {:induction false} SelectorPlaced(selector: string, scope: string, refuses: string -> bool)
    ensures ScopeSelector(selector, scope, refuses).Ok? <==> Placeable(selector, refuses)
    ensures Placeable(selector, refuses) ==> ScopeSelector(selector, scope, refuses) == Ok(Placed(selector, scope))
  {
    LeadsWhere(selector, "html");
    LeadsWhere(selector, "body");
    LeadsWhere(selector, ":root");
  }

  // ----- a rule -------------------------------------------------------------------------------------

  function AllPlaced(selectors: seq<string>, scope: string): seq<string> {
    if selectors == [] then [] else AllPlaced(selectors[..|selectors| - 1], scope) + Placed(selectors[|selectors| - 1], scope)
  }

  lemma {:induction false} EachPlaced(selectors: seq<string>, scope: string, refuses: string -> bool)
    ensures ScopeEach(selectors, scope, refuses).Ok? <==> forall s <- selectors :: Placeable(s, refuses)
    ensures ScopeEach(selectors, scope, refuses).Ok? ==> ScopeEach(selectors, scope, refuses).value == AllPlaced(selectors, scope)
  {
    if selectors != [] {
      var init, last := selectors[..|selectors| - 1], selectors[|selectors| - 1];
      assert selectors == init + [last];
      EachPlaced(init, scope, refuses);
      SelectorPlaced(last, scope, refuses);
    }
  }

  /** The list has each entry once, where it first stood. */
  predicate FirstsOf(all: seq<string>, firsts: seq<string>) {
    && (forall s <- firsts :: s in all) && (forall s <- all :: s in firsts)
    && forall i, j :: 0 <= i < j < |firsts| ==> firsts[i] != firsts[j] && exists k :: 0 <= k < |all| && all[k] == firsts[i] && firsts[j] !in all[..k + 1]
  }

  lemma {:induction false} DistinctFirsts(all: seq<string>)
    ensures FirstsOf(all, Distinct(all))
  {
    if all != [] {
      var init, last := all[..|all| - 1], all[|all| - 1];
      assert all == init + [last];
      DistinctFirsts(init);
      var before, firsts := Distinct(init), Distinct(all);
      forall i, j | 0 <= i < j < |firsts|
        ensures firsts[i] != firsts[j] && exists k :: 0 <= k < |all| && all[k] == firsts[i] && firsts[j] !in all[..k + 1] {
        if j < |before| {
          var k :| 0 <= k < |init| && init[k] == before[i] && before[j] !in init[..k + 1];
          assert all[..k + 1] == init[..k + 1] && all[k] == init[k];
        } else {
          assert before[i] in init;
          var k :| 0 <= k < |init| && init[k] == before[i];
          assert all[..k + 1] == init[..k + 1] && all[k] == init[k];
          assert forall x <- init[..k + 1] :: x in init;
        }
      }
    }
  }

  /** A rule's selectors: each of its list, tidied and placed below the scope, once, in the order they come. */
  lemma {:induction false} RulePlaced(prelude: string, scope: string, refuses: string -> bool, parts: seq<string>)
    requires PlainScope(scope) && Clean(prelude)
    requires parts != [] && (forall part <- parts :: Solo(part)) && prelude == Commas(parts)
    ensures var r, tidy := RuleSelectors(prelude, scope, refuses), NormalizedAll(parts);
            && (r.Ok? <==> forall s <- tidy :: Placeable(s, refuses))
            && (r.Ok? ==> FirstsOf(AllPlaced(tidy, scope), r.value))
  {
    SplitsExactly(prelude, parts);
    var tidy := NormalizedAll(parts);
    EachPlaced(tidy, scope, refuses);
    RuleScoped(prelude, scope, refuses);
    DistinctFirsts(AllPlaced(tidy, scope));
  }

  /** A rule is one line: its selectors, and its body with each run of white space that breaks a line as one space. */
  lemma {:induction false} RuleWritten(prelude: string, body: string, scope: string, refuses: string -> bool, indent: string)
    requires RuleSelectors(prelude, scope, refuses).Ok?
    ensures ItemLines(Rule(prelude, body), scope, refuses, indent) ==
            Ok([indent + Listed(RuleSelectors(prelude, scope, refuses).value) + " { " + Unbreak(Trim(body)) + " }"])
  {
    var front, text := indent + Listed(RuleSelectors(prelude, scope, refuses).value), Unbreak(Trim(body));
    assert front + " {" + (" " + text + " ") + "}" == front + " { " + text + " }";
  }
}
