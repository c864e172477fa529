/** What is taken out of a stylesheet before it is parsed, and which at-rules are groups. */
module ScopeCssComments {
  import opened Wrappers
  import opened ScopeCss
  import opened ScopeCssScans
  import opened ScopeCssPlacement

  /** A comment starts somewhere outside the strings. */
  predicate OpensComment(t: string, q: Scan) {
    exists i :: 0 <= i < |t| && CommentAt(t, q, i)
  }

  predicate CommentAt(t: string, q: Scan, i: int) {
    0 <= i < |t| - 1 && t[i] == '/' && t[i + 1] == '*' && After(t[..i], q) == Outside
  }

  /** The text closes a comment somewhere. */
  predicate Closes(t: string) {
    exists i :: 0 <= i < |t| - 1 && t[i] == '*' && t[i + 1] == '/'
  }

  lemma {:induction false} CommentFurther(t: string, q: Scan, i: int)
    requires t != [] && i > 0
    ensures CommentAt(t, q, i) <==> CommentAt(t[1..], Step(q, t[0]), i - 1)
  {
    if i < |t| {
      assert t[..i][1..] == t[1..][..i - 1];
    }
  }

  lemma {:induction false} NoneFurther(t: string, q: Scan)
    requires t != [] && !OpensComment(t, q)
    ensures !OpensComment(t[1..], Step(q, t[0])) && !(q.Outside? && |t| > 1 && t[0] == '/' && t[1] == '*')
  {
    assert t[..0] == [];
    assert !CommentAt(t, q, 0);
    forall i | 0 <= i < |t[1..]| ensures !CommentAt(t[1..], Step(q, t[0]), i) { CommentFurther(t, q, i + 1); }
  }

  /** A text in which no comment starts stays as it is, if its strings end. */
  lemma {:induction false} PlainStays(t: string, q: Scan)
    requires !OpensComment(t, q)
    ensures Uncommented(t, q) == if After(t, q) == Outside then Ok(t) else Err(UnterminatedString)
  {
    if t != [] {
      NoneFurther(t, q);
      PlainStays(t[1..], Step(q, t[0]));
      assert [t[0]] + t[1..] == t;
    }
  }

  lemma {:induction false} ClosesFurther(t: string)
    requires t != [] && Closes(t[1..])
    ensures Closes(t)
  {
    var i :| 0 <= i < |t[1..]| - 1 && t[1..][i] == '*' && t[1..][i + 1] == '/';
    assert t[i + 1] == '*' && t[i + 2] == '/';
  }

  lemma {:induction false} EndFound(c: string, b: string)
    requires !Closes(c + "*")
    ensures CommentEnd(c + "*/" + b) == Some(|c| + 2)
  {
    var t := c + "*/" + b;
    if c == [] {
      assert t[0] == '*' && t[1] == '/';
    } else {
      var d := c + "*";
      assert t[0] == d[0] && t[1] == d[1] && t[1..] == c[1..] + "*/" + b && d[1..] == c[1..] + "*";
      if Closes(d[1..]) { ClosesFurther(d); }
      EndFound(c[1..], b);
    }
  }

  lemma {:induction false} Unended(t: string)
    requires !Closes(t)
    ensures CommentEnd(t).None?
  {
    if |t| >= 2 {
      if Closes(t[1..]) { ClosesFurther(t); }
      Unended(t[1..]);
    }
  }

  /** The first comment goes, up to where it first closes, and what follows is read as if it were not there. */
  lemma {:induction false} CommentGoes(a: string, c: string, b: string, q: Scan)
    requires !OpensComment(a + "/", q) && After(a, q) == Outside && !Closes(c + "*")
    ensures Uncommented(a + "/*" + c + "*/" + b, q) == Kept(a, Uncommented(b, Outside))
  {
    var t := a + "/*" + c + "*/" + b;
    if a == [] {
      assert t[0] == '/' && t[1] == '*' && t[2..] == c + "*/" + b;
      EndFound(c, b);
      assert t[2 + (|c| + 2)..] == b;
      KeptNothing(Uncommented(b, Outside));
    } else {
      NoneFurther(a + "/", q);
      assert (a + "/")[1..] == a[1..] + "/" && (a + "/")[0] == a[0];
      FrontOf(a, c, b);
      assert !(q.Outside? && t[0] == '/' && t[1] == '*');
      CommentGoes(a[1..], c, b, Step(q, a[0]));
      KeptFront(a, Uncommented(b, Outside));
    }
  }

  lemma {:induction false} FrontOf(a: string, c: string, b: string)
    requires a != []
    ensures var t := a + "/*" + c + "*/" + b; t[0] == a[0] && t[1] == (a + "/")[1] && t[1..] == a[1..] + "/*" + c + "*/" + b
  {
  }

  lemma {:induction false} KeptFront(a: string, rest: Result<string, CssError>)
    requires a != []
    ensures Kept([a[0]], Kept(a[1..], rest)) == Kept(a, rest)
  {
    if rest.Ok? { assert [a[0]] + (a[1..] + rest.value) == a + rest.value; }
  }

  /** A comment that never closes is an error. */
  lemma {:induction false} OpenCommentFails(a: string, c: string, q: Scan)
    requires !OpensComment(a + "/", q) && After(a, q) == Outside && !Closes(c)
    ensures Uncommented(a + "/*" + c, q) == Err(UnterminatedComment)
  {
    var t := a + "/*" + c;
    if a == [] {
      assert t[0] == '/' && t[1] == '*' && t[2..] == c;
      Unended(c);
    } else {
      NoneFurther(a + "/", q);
      assert (a + "/")[1..] == a[1..] + "/" && (a + "/")[0] == a[0];
      assert t[0] == a[0] && t[1] == (a + "/")[1] && t[1..] == a[1..] + "/*" + c;
      OpenCommentFails(a[1..], c, Step(q, a[0]));
    }
  }

  // ----- groups -------------------------------------------------------------------------------

  predicate NameEnds(t: string) {
    t == [] || !('A' <= t[0] <= 'Z' || 'a' <= t[0] <= 'z' || t[0] == '-')
  }

  lemma {:induction false} AtNameIs(t: string)
    ensures AtName(t) <= t && NameEnds(t[|AtName(t)|..]) && forall c <- AtName(t) :: 'A' <= c <= 'Z' || 'a' <= c <= 'z' || c == '-'
  {
    if t != [] && NameChar(t[0]) {
      AtNameIs(t[1..]);
      assert t[1..][|AtName(t[1..])|..] == t[|AtName(t)|..];
    }
  }

  lemma {:induction false} AtNameOf(name: string, rest: string)
    requires NameEnds(rest) && forall c <- name :: 'A' <= c <= 'Z' || 'a' <= c <= 'z' || c == '-'
    ensures AtName(name + rest) == name
  {
    if name == [] {
      assert name + rest == rest;
    } else {
      assert name[0] in name && forall c <- name[1..] :: c in name;
      assert (name + rest)[0] == name[0] && (name + rest)[1..] == name[1..] + rest;
      AtNameOf(name[1..], rest);
    }
  }

  predicate GroupName(text: string) {
    Spells(text, "media") || Spells(text, "supports")
  }

  predicate GroupNamed(prelude: string, n: int) {
    0 <= n < |prelude| && prelude[0] == '@' && GroupName(prelude[1..1 + n]) && NameEnds(prelude[1 + n..])
  }

  lemma {:induction false} GroupNameIs(text: string)
    ensures GroupName(text) <==> LowerAll(text) == "media" || LowerAll(text) == "supports"
  {
    LowerSpells(text, "media");
    LowerSpells(text, "supports");
  }

  /** The text after the first character, cut in two. */
  lemma {:induction false} Cut(prelude: string, n: nat)
    requires n < |prelude|
    ensures prelude[1..][..n] == prelude[1..1 + n] && prelude[1..][n..] == prelude[1 + n..] && prelude[1..1 + n] + prelude[1 + n..] == prelude[1..]
  {
  }

  lemma {:induction false} NamedGroup(prelude: string, n: nat)
    requires GroupNamed(prelude, n)
    ensures AtName(prelude[1..]) == prelude[1..1 + n]
  {
    Cut(prelude, n);
    SpelledName(prelude[1..1 + n]);
    AtNameOf(prelude[1..1 + n], prelude[1 + n..]);
  }

  /** A group is @media or @supports, in any case, as a whole name. */
  lemma {:induction false} GroupRuleIs(prelude: string)
    ensures GroupRule(prelude) <==> exists n :: GroupNamed(prelude, n)
  {
    if prelude != [] && prelude[0] == '@' {
      var name := AtName(prelude[1..]);
      GroupNameIs(name);
      assert GroupRule(prelude) <==> GroupName(name);
      if GroupName(name) {
        AtNameIs(prelude[1..]);
        Cut(prelude, |name|);
        assert name == prelude[1..][..|name|];
        assert GroupNamed(prelude, |name|);
      }
      if n :| GroupNamed(prelude, n) { NamedGroup(prelude, n); }
    }
  }

  lemma {:induction false} SpelledName(t: string)
    requires GroupName(t)
    ensures forall c <- t :: 'A' <= c <= 'Z' || 'a' <= c <= 'z' || c == '-'
  {
    forall c <- t ensures 'A' <= c <= 'Z' || 'a' <= c <= 'z' {
      var i :| 0 <= i < |t| && t[i] == c;
      assert forall i :: 0 <= i < |"media"| ==> 'a' <= "media"[i] <= 'z';
      assert forall i :: 0 <= i < |"supports"| ==> 'a' <= "supports"[i] <= 'z';
    }
  }
}
