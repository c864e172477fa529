/** What the scanners see of a text, and what trimming and respacing leave of it. */
module ScopeCssScans {
  import opened Wrappers
  import opened ScopeCss

  /** The characters outside strings, without white space. */
  function Outer(t: string, q: Scan): string {
    if t == [] then []
    else (if q.Outside? && !Quote(t[0]) && !Space(t[0]) then [t[0]] else []) + Outer(t[1..], Step(q, t[0]))
  }

  predicate Blank(t: string) {
    forall c <- t :: Space(c)
  }

  lemma {:induction false} OuterConcat(a: string, b: string, q: Scan)
    ensures Outer(a + b, q) == Outer(a, q) + Outer(b, After(a, q))
  {
    if a == [] {
      assert a + b == b;
    } else {
      assert (a + b)[1..] == a[1..] + b && (a + b)[0] == a[0];
      OuterConcat(a[1..], b, Step(q, a[0]));
      var first := if q.Outside? && !Quote(a[0]) && !Space(a[0]) then [a[0]] else [];
      Associative(first, Outer(a[1..], Step(q, a[0])), Outer(b, After(a, q)));
    }
  }

  lemma {:induction false} Associative(a: string, b: string, c: string)
    ensures a + b + c == a + (b + c)
  {
  }

  /** Both readings of a concatenation at once. */
  lemma {:induction false} ScanConcat(a: string, b: string, q: Scan)
    ensures After(a + b, q) == After(b, After(a, q)) && Outer(a + b, q) == Outer(a, q) + Outer(b, After(a, q))
  {
    AfterConcat(a, b, q);
    OuterConcat(a, b, q);
  }

  /** White space ends an escape and moves nothing else. */
  lemma {:induction false} BlankScan(t: string, q: Scan)
    requires Blank(t)
    ensures Outer(t, q) == []
    ensures After(t, q) == if t != [] && q.Escaped? then Inside(q.quote) else q
  {
    if t != [] {
      assert t[0] in t && forall c <- t[1..] :: c in t;
      BlankScan(t[1..], Step(q, t[0]));
    }
  }

  lemma {:induction false} CollapseScan(t: string, running: bool, q: Scan)
    requires running ==> !q.Escaped?
    ensures After(Collapse(t, running), q) == After(t, q) && Outer(Collapse(t, running), q) == Outer(t, q)
  {
    if t != [] {
      var rest := Collapse(t[1..], Space(t[0]));
      assert Space(' ') && (Space(t[0]) ==> Step(q, t[0]) == Step(q, ' '));
      CollapseScan(t[1..], Space(t[0]), Step(q, t[0]));
      if !Space(t[0]) {
        assert ([t[0]] + rest)[1..] == rest;
      } else {
        assert ([' '] + rest)[1..] == rest && [] + rest == rest;
      }
    }
  }

  lemma {:induction false} UnbreakScan(t: string, q: Scan)
    ensures After(Unbreak(t), q) == After(t, q) && Outer(Unbreak(t), q) == Outer(t, q)
    decreases |t|
  {
    if t != [] {
      if Space(t[0]) {
        var n := Run(t);
        var run, tail := t[..n], t[n..];
        var kept, rest := if '\n' in run then [' '] else run, Unbreak(tail);
        assert t == run + tail && Unbreak(t) == kept + rest;
        assert After(kept, q) == After(run, q) && Outer(kept, q) == [] == Outer(run, q) by { BlankScan(run, q); BlankScan(kept, q); }
        UnbreakScan(tail, After(run, q));
        ScanConcat(run, tail, q);
        ScanConcat(kept, rest, q);
      } else {
        UnbreakScan(t[1..], Step(q, t[0]));
        assert ([t[0]] + Unbreak(t[1..]))[1..] == Unbreak(t[1..]);
      }
    }
  }

  // ----- trimming ----------------------------------------------------------------------

  /** Not empty, and neither end is white space. */
  predicate Trimmed(t: string) {
    t != [] && !Space(t[0]) && !Space(t[|t| - 1])
  }

  lemma {:induction false} TrimStartSplits(t: string) returns (lead: string)
    ensures Blank(lead) && t == lead + TrimStart(t) && (TrimStart(t) == [] || !Space(TrimStart(t)[0]))
  {
    lead := [];
    if t != [] && Space(t[0]) {
      var more := TrimStartSplits(t[1..]);
      lead := [t[0]] + more;
    }
  }

  lemma {:induction false} TrimEndSplits(t: string) returns (trail: string)
    ensures Blank(trail) && t == TrimEnd(t) + trail && (TrimEnd(t) == [] || !Space(TrimEnd(t)[|TrimEnd(t)| - 1]))
  {
    trail := [];
    if t != [] && Space(t[|t| - 1]) {
      var more := TrimEndSplits(t[..|t| - 1]);
      trail := more + [t[|t| - 1]];
    }
  }

  lemma {:induction false} TrimSplits(t: string) returns (lead: string, trail: string)
    ensures Blank(lead) && Blank(trail) && t == lead + Trim(t) + trail
    ensures Trim(t) == [] || Trimmed(Trim(t))
  {
    lead := TrimStartSplits(t);
    trail := TrimEndSplits(TrimStart(t));
    assert t == lead + (Trim(t) + trail);
    if Trim(t) != [] { assert Trim(t)[0] == TrimStart(t)[0]; }
  }

  /** A state that white space leaves at Outside was already there. */
  lemma {:induction false} BackOverBlank(t: string, q: Scan)
    requires Blank(t) && After(t, q) == Outside
    ensures q == Outside
  {
    BlankScan(t, q);
  }

  lemma {:induction false} TrimScan(t: string)
    requires After(t, Outside) == Outside
    ensures After(Trim(t), Outside) == Outside && Outer(Trim(t), Outside) == Outer(t, Outside)
  {
    var lead, trail := TrimSplits(t);
    ScanConcat(lead + Trim(t), trail, Outside);
    ScanConcat(lead, Trim(t), Outside);
    BlankScan(lead, Outside);
    BackOverBlank(trail, After(lead + Trim(t), Outside));
    BlankScan(trail, Outside);
  }

  lemma {:induction false} TrimStartPadded(w: string, t: string)
    requires Blank(w) && t != [] && !Space(t[0])
    ensures TrimStart(w + t) == t
  {
    if w == [] {
      assert w + t == t;
    } else {
      assert w[0] in w && forall c <- w[1..] :: c in w;
      TrimStartPadded(w[1..], t);
      assert (w + t)[1..] == w[1..] + t;
    }
  }

  lemma {:induction false} TrimEndPadded(t: string, v: string)
    requires Blank(v) && t != [] && !Space(t[|t| - 1])
    ensures TrimEnd(t + v) == t
  {
    if v == [] {
      assert t + v == t;
    } else {
      assert v[|v| - 1] in v && forall c <- v[..|v| - 1] :: c in v;
      TrimEndPadded(t, v[..|v| - 1]);
      assert (t + v)[..|t + v| - 1] == t + v[..|v| - 1];
    }
  }

  lemma {:induction false} TrimPadded(w: string, t: string, v: string)
    requires Blank(w) && Blank(v) && Trimmed(t)
    ensures Trim(w + t + v) == t
  {
    assert w + t + v == w + (t + v);
    TrimStartPadded(w, t + v);
    TrimEndPadded(t, v);
  }

  lemma {:induction false} TrimBlank(t: string)
    requires Blank(t)
    ensures Trim(t) == []
  {
    if t != [] {
      assert t[0] in t && forall c <- t[1..] :: c in t;
      TrimBlank(t[1..]);
    }
  }

  // ----- collapsing ------------------------------------------------------------------------

  lemma {:induction false} CollapseEnds(t: string, running: bool)
    ensures t != [] && !Space(t[|t| - 1]) ==> Collapse(t, running) != [] && !Space(Collapse(t, running)[|Collapse(t, running)| - 1])
    ensures t != [] && !Space(t[0]) ==> Collapse(t, running) == [t[0]] + Collapse(t[1..], false)
  {
    if t != [] { CollapseEnds(t[1..], Space(t[0])); }
  }

  lemma {:induction false} CollapseTrimmed(t: string)
    requires Trimmed(t)
    ensures Trimmed(Collapse(t, false)) && Collapse(t, false)[0] == t[0]
  {
    CollapseEnds(t, false);
  }

  lemma {:induction false} CollapseAgain(t: string, running: bool)
    ensures Collapse(Collapse(t, running), running) == Collapse(t, running)
  {
    if t != [] {
      var rest := Collapse(t[1..], Space(t[0]));
      CollapseAgain(t[1..], Space(t[0]));
      assert Space(' ');
      if !Space(t[0]) {
        assert ([t[0]] + rest)[1..] == rest;
      } else {
        assert ([' '] + rest)[1..] == rest && [] + rest == rest;
      }
    }
  }

  lemma {:induction false} CollapseName(t: string)
    ensures AtName(Collapse(t, false)) == AtName(t)
  {
    if t != [] {
      var rest := Collapse(t[1..], Space(t[0]));
      if !Space(t[0]) {
        CollapseName(t[1..]);
        assert ([t[0]] + rest)[1..] == rest;
      }
    }
  }

  lemma {:induction false} CollapseGroupRule(prelude: string)
    requires GroupRule(prelude)
    ensures GroupRule(Collapse(prelude, false))
  {
    CollapseName(prelude[1..]);
    assert prelude[0] == '@';
    assert Collapse(prelude, false)[1..] == Collapse(prelude[1..], false);
  }

  // ----- braces -------------------------------------------------------------------------------

  predicate Calm(o: string) {
    forall c <- o :: !Brace(c)
  }

  /** Strings end inside the text, and no brace or semicolon stands outside them. */
  predicate Clean(t: string) {
    After(t, Outside) == Outside && Calm(Outer(t, Outside))
  }

  lemma {:induction false} CleanConcat(a: string, b: string)
    requires Clean(a) && Clean(b)
    ensures Clean(a + b)
  {
    ScanConcat(a, b, Outside);
  }

  lemma {:induction false} HeadCalm(t: string, q: Scan)
    ensures match Head(t, q)
            case None => Calm(Outer(t, q))
            case Some(i) => i < |t| && Calm(Outer(t[..i], q))
  {
    if t != [] && !(q.Outside? && Brace(t[0])) {
      HeadCalm(t[1..], Step(q, t[0]));
      if Head(t, q).Some? { assert t[..Head(t, q).value][1..] == t[1..][..Head(t, q).value - 1]; }
    }
  }

  /** The scanner stops at the brace after a text that holds none. */
  lemma {:induction false} HeadFinds(t: string, r: string, q: Scan)
    requires Calm(Outer(t, q)) && After(t, q) == Outside && r != [] && Brace(r[0])
    ensures Head(t + r, q) == Some(|t|)
  {
    if t == [] {
      assert t + r == r;
    } else {
      assert (t + r)[1..] == t[1..] + r;
      assert q.Outside? && !Quote(t[0]) && !Space(t[0]) ==> t[0] in Outer(t, q);
      HeadFinds(t[1..], r, Step(q, t[0]));
    }
  }

  lemma {:induction false} HeadNone(t: string, q: Scan)
    requires Calm(Outer(t, q))
    ensures Head(t, q).None?
  {
    if t != [] {
      assert q.Outside? && !Quote(t[0]) && !Space(t[0]) ==> t[0] in Outer(t, q);
      HeadNone(t[1..], Step(q, t[0]));
    }
  }

  /** The brace depth after the characters, or None when it comes down to zero. */
  function Level(o: string, depth: nat): Option<nat> {
    if o == [] then Some(depth)
    else if o[0] == '{' then Level(o[1..], depth + 1)
    else if o[0] == '}' then if depth <= 1 then None else Level(o[1..], depth - 1)
    else Level(o[1..], depth)
  }

  lemma {:induction false} LevelConcat(a: string, b: string, depth: nat)
    ensures Level(a + b, depth) == if Level(a, depth).None? then None else Level(b, Level(a, depth).value)
  {
    if a == [] {
      assert a + b == b;
    } else {
      assert (a + b)[1..] == a[1..] + b;
      LevelConcat(a[1..], b, if a[0] == '{' then depth + 1 else if a[0] == '}' && depth > 1 then depth - 1 else depth);
    }
  }

  lemma {:induction false} LevelShift(o: string, depth: nat)
    requires Level(o, depth).Some?
    ensures Level(o, depth + 1) == Some(Level(o, depth).value + 1)
  {
    if o != [] {
      LevelShift(o[1..], if o[0] == '{' then depth + 1 else if o[0] == '}' then depth - 1 else depth);
    }
  }

  lemma {:induction false} LevelCalm(o: string, depth: nat)
    requires Calm(o)
    ensures Level(o, depth) == Some(depth)
  {
    if o != [] {
      assert o[0] in o && forall c <- o[1..] :: c in o;
      LevelCalm(o[1..], depth);
    }
  }

  /** A block's contents: strings end inside, and the depth stays above zero and returns. */
  predicate Contained(t: string) {
    After(t, Outside) == Outside && Level(Outer(t, Outside), 1) == Some(1)
  }

  lemma {:induction false} ContainedConcat(a: string, b: string)
    requires Contained(a) && Contained(b)
    ensures Contained(a + b)
  {
    ScanConcat(a, b, Outside);
    LevelConcat(Outer(a, Outside), Outer(b, Outside), 1);
  }

  lemma {:induction false} CleanContained(t: string)
    requires Clean(t)
    ensures Contained(t)
  {
    LevelCalm(Outer(t, Outside), 1);
  }

  lemma {:induction false} BlankClean(t: string)
    requires Blank(t)
    ensures Clean(t)
  {
    BlankScan(t, Outside);
  }

  /** A visible character before and after a text in which strings end. */
  lemma {:induction false} ScanAround(open: char, t: string, close: char)
    requires !Quote(open) && !Space(open) && !Quote(close) && !Space(close) && After(t, Outside) == Outside
    ensures After([open] + t + [close], Outside) == Outside && Outer([open] + t + [close], Outside) == [open] + Outer(t, Outside) + [close]
  {
    OneScan(open);
    OneScan(close);
    ScanConcat([open], t, Outside);
    ScanConcat([open] + t, [close], Outside);
  }

  lemma {:induction false} OneScan(c: char)
    requires !Quote(c) && !Space(c)
    ensures After([c], Outside) == Outside && Outer([c], Outside) == [c]
  {
    assert [c][1..] == [];
  }

  /** Braces around contents are contents again. */
  lemma {:induction false} BlockContained(b: string)
    requires Contained(b)
    ensures Contained("{" + b + "}")
  {
    ScanAround('{', b, '}');
    LevelShift(Outer(b, Outside), 1);
    LevelAround(Outer(b, Outside));
  }

  lemma {:induction false} LevelAround(o: string)
    requires Level(o, 2) == Some(2)
    ensures Level("{" + o + "}", 1) == Some(1)
  {
    assert ("{" + o + "}")[1..] == o + "}";
    LevelConcat(o, "}", 2);
    assert Level("}", 2) == Some(1);
  }

  /** A character outside strings that is no brace, or one inside a string, leaves the depth alone. */
  lemma {:induction false} LevelStep(t: string, depth: nat, q: Scan)
    requires t != [] && depth >= 1
    ensures var o, rest := Outer(t, q), Outer(t[1..], Step(q, t[0]));
            if q.Outside? && t[0] == '{' then Level(o, depth) == Level(rest, depth + 1)
            else if q.Outside? && t[0] == '}' then Level(o, depth) == if depth == 1 then None else Level(rest, depth - 1)
            else Level(o, depth) == Level(rest, depth)
  {
    var o, rest := Outer(t, q), Outer(t[1..], Step(q, t[0]));
    if q.Outside? && !Quote(t[0]) && !Space(t[0]) {
      assert o[0] == t[0] && o[1..] == rest;
    } else {
      assert o == rest;
    }
  }

  lemma {:induction false} BlockEndPast(t: string, r: string, depth: nat, q: Scan)
    requires Level(Outer(t, q), depth).Some? && depth >= 1
    ensures BlockEnd(t + r, depth, q) == Later(BlockEnd(r, Level(Outer(t, q), depth).value, After(t, q)), |t|)
  {
    if t == [] {
      assert t + r == r;
    } else {
      assert (t + r)[1..] == t[1..] + r && (t + r)[0] == t[0];
      LevelStep(t, depth, q);
      BlockEndPast(t[1..], r, if q.Outside? && t[0] == '{' then depth + 1 else if q.Outside? && t[0] == '}' then depth - 1 else depth, Step(q, t[0]));
    }
  }

  lemma {:induction false} BlockEndFound(t: string, depth: nat, q: Scan)
    requires depth >= 1 && BlockEnd(t, depth, q).Some?
    ensures var n := BlockEnd(t, depth, q).value;
            1 <= n <= |t| && After(t[..n - 1], q) == Outside && Level(Outer(t[..n - 1], q), depth) == Some(1)
  {
    BlockEndWithin(t, depth, q);
    var n := BlockEnd(t, depth, q).value;
    if q.Outside? && t[0] == '}' && depth == 1 {
      assert t[..n - 1] == [];
    } else {
      var after := if q.Outside? && t[0] == '{' then depth + 1 else if q.Outside? && t[0] == '}' then depth - 1 else depth;
      BlockEndFound(t[1..], after, Step(q, t[0]));
      var b := t[..n - 1];
      assert b[1..] == t[1..][..n - 2] && b[0] == t[0];
      LevelStep(b, depth, q);
    }
  }
}
