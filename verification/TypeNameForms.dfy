/** Which name each schema ID gets: its parts capitalized and joined, and a number only where a smaller ID took the name. */
module TypeNameForms {
  import opened JsValues
  import opened TypeNames

  // ----- the capitalized parts -------------------------------------------------------------

  /** How many of the units are not separators. */
  function Kept(id: JsString): nat {
    if id == [] then 0 else Kept(id[..|id| - 1]) + if id[|id| - 1] == 45 || id[|id| - 1] == 95 then 0 else 1
  }

  /** A small letter's capital; any other unit as it is. */
  function Capital(u: CodeUnit): CodeUnit {
    if 97 <= u <= 122 then u - 32 else u
  }

  predicate Breaks(u: CodeUnit) {
    u == 45 || u == 95
  }

  lemma {:induction false} PascalLast(id: JsString, starting: bool)
    requires id != []
    ensures var init, u := id[..|id| - 1], id[|id| - 1];
            var start := if init == [] then starting else Breaks(init[|init| - 1]);
            PascalFrom(id, starting) == PascalFrom(init, starting) + if Breaks(u) then [] else [if start then Capital(u) else u]
    decreases |id|
  {
    if |id| > 1 {
      var rest := id[1..];
      PascalLast(rest, IsSeparator(id[0]));
      assert id[..|id| - 1][1..] == rest[..|rest| - 1];
    }
  }

  /** Every unit but the separators stands in the name, in order; it is capitalized exactly when it starts a part. */
  lemma {:induction false} PascalIsParts(id: JsString, i: nat)
    requires i < |id| && !Breaks(id[i])
    ensures Kept(id[..i]) < |PascalCase(id)| == Kept(id)
    ensures PascalCase(id)[Kept(id[..i])] == if i == 0 || Breaks(id[i - 1]) then Capital(id[i]) else id[i]
    decreases |id|
  {
    PascalLength(id);
    PascalLast(id, true);
    var init := id[..|id| - 1];
    PascalLength(init);
    if i < |init| {
      PascalIsParts(init, i);
      assert init[..i] == id[..i];
    }
  }

  lemma {:induction false} PascalLength(id: JsString)
    ensures |PascalCase(id)| == Kept(id)
  {
    if id != [] {
      PascalLast(id, true);
      PascalLength(id[..|id| - 1]);
    }
  }

  // ----- numbers -----------------------------------------------------------------------------

  /** The number digits write. */
  function Reads(digits: JsString): int {
    if digits == [] then 0 else 10 * Reads(digits[..|digits| - 1]) + digits[|digits| - 1] - 48
  }

  /** A number is written in decimal, without leading zeros. */
  lemma {:induction false} DecimalReads(n: nat)
    ensures Reads(Decimal(n)) == n && Decimal(n) != [] && (forall u <- Decimal(n) :: 48 <= u <= 57)
    ensures n > 0 ==> Decimal(n)[0] != 48
  {
    if n >= 10 {
      DecimalReads(n / 10);
      assert Decimal(n)[..|Decimal(n)| - 1] == Decimal(n / 10);
    }
  }

  // ----- collisions ------------------------------------------------------------------------------

  /** The name an ID asks for, then that name with 2, with 3 and so on. */
  function Asked(id: JsString, k: nat): JsString {
    (PascalCase(id) + if PascalCase(id) in RESERVED then Units("Schema") else []) + if k < 2 then [] else Decimal(k)
  }

  lemma AskedIs(id: JsString, k: nat)
    ensures Asked(id, k) == Candidate(Base(id), k)
  {
  }

  /** Another, smaller ID has this name. */
  predicate TakenBefore(names: map<JsString, JsString>, id: JsString, name: JsString) {
    exists x <- names :: LexLess(x, id) && names[x] == name
  }

  lemma {:induction false} NamedAt(ids: seq<JsString>, i: nat)
    requires i < |ids|
    ensures |Named(ids)| == |ids| && Named(ids)[i] == FreeFrom(Base(ids[i]), set n <- Named(ids)[..i], 1)
    decreases |ids|
  {
    NamedLength(ids);
    var init := ids[..|ids| - 1];
    NamedLength(init);
    assert Named(ids)[..|init|] == Named(init);
    if i < |init| {
      NamedAt(init, i);
      assert Named(ids)[..i] == Named(init)[..i];
    }
  }

  /** Each ID gets the first of the names it asks for that no smaller ID has. */
  lemma {:induction false} NameIs(ids: seq<JsString>, id: JsString) returns (k: nat)
    requires Distinct(ids) && id in ids
    ensures var names := TypeNameMap(ids);
            && id in names && k >= 1 && names[id] == Asked(id, k) && !TakenBefore(names, id, Asked(id, k))
            && forall j :: 1 <= j < k ==> TakenBefore(names, id, Asked(id, j))
  {
    var sorted, given := Sorted(ids), Named(Sorted(ids));
    SortedIs(ids);
    LexIrreflexive(sorted);
    NamedLength(sorted);
    NameMapIs(sorted, given);
    var i :| 0 <= i < |sorted| && sorted[i] == id;
    NamedAt(sorted, i);
    var used := set n <- given[..i];
    FreeIs(Base(id), used, 1);
    k :| k >= 1 && FreeFrom(Base(id), used, 1) == Candidate(Base(id), k) && forall j :: 1 <= j < k ==> Candidate(Base(id), j) in used;
    forall name: JsString ensures name in used <==> TakenBefore(TypeNameMap(ids), id, name) {
      UsedBefore(sorted, given, TypeNameMap(ids), i, name);
    }
    AskedIs(id, k);
    forall j | 1 <= j < k ensures TakenBefore(TypeNameMap(ids), id, Asked(id, j)) { AskedIs(id, j); }
  }

  /** The names given to smaller IDs are those of the entries before. */
  lemma {:induction false} UsedBefore(sorted: seq<JsString>, given: seq<JsString>, names: map<JsString, JsString>, i: nat, name: JsString)
    requires Ascending(sorted) && |given| == |sorted| && i < |sorted| && names.Keys == set id <- sorted
    requires forall j :: 0 <= j < |sorted| ==> sorted[j] in names && names[sorted[j]] == given[j]
    ensures name in given[..i] <==> TakenBefore(names, sorted[i], name)
  {
    if name in given[..i] {
      var j :| 0 <= j < i && given[j] == name;
      assert LexLess(sorted[j], sorted[i]);
    }
    if x :| x in names && LexLess(x, sorted[i]) && names[x] == name {
      var j :| 0 <= j < |sorted| && sorted[j] == x;
      assert j < i by {
        LexTotal(sorted[i], sorted[j]);
        LexTotal(sorted[j], sorted[i]);
      }
      assert given[..i][j] == name;
    }
  }
}
