/** The TypeScript names generated for schema IDs. */
module TypeNames {
  import opened JsValues

  // ----- schema IDs and identifiers -----------------------------------------------------

  predicate IsLetter(u: CodeUnit) { 65 <= u <= 90 || 97 <= u <= 122 }
  predicate IsDigit(u: CodeUnit) { 48 <= u <= 57 }
  predicate IsSeparator(u: CodeUnit) { u == 45 || u == 95 }

  /** A letter, then up to 63 letters, digits, underscores or hyphens. */
  predicate IsSchemaId(id: JsString) {
    1 <= |id| <= 64 && IsLetter(id[0]) && forall u <- id :: IsLetter(u) || IsDigit(u) || IsSeparator(u)
  }

  predicate IsIdentifier(name: JsString) {
    name != [] && !IsDigit(name[0]) && forall u <- name :: IsLetter(u) || IsDigit(u) || u == 95 || u == 36
  }

  const RESERVED: set<JsString> := {
    Units("AppChannels"), Units("ChannelContract"), Units("Client"), Units("Subscription"), Units("Array"), Units("Boolean"), Units("Date"),
    Units("Error"), Units("Function"), Units("JSON"), Units("Map"), Units("Math"), Units("Number"), Units("Object"), Units("Promise"),
    Units("Record"), Units("Set"), Units("String"), Units("Symbol") }

  function Upper(u: CodeUnit): CodeUnit {
    if 97 <= u <= 122 then u - 32 else u
  }

  /** The parts between separators, each with its first letter capitalized. */
  function PascalFrom(id: JsString, starting: bool): JsString {
    if id == [] then []
    else if IsSeparator(id[0]) then PascalFrom(id[1..], true)
    else [if starting then Upper(id[0]) else id[0]] + PascalFrom(id[1..], false)
  }

  function PascalCase(id: JsString): JsString {
    PascalFrom(id, true)
  }

  function Base(id: JsString): JsString {
    if PascalCase(id) in RESERVED then PascalCase(id) + Units("Schema") else PascalCase(id)
  }

  function Decimal(n: nat): JsString {
    if n < 10 then [48 + n] else Decimal(n / 10) + [48 + n % 10]
  }

  /** The name itself, then the name with 2, 3 and so on. */
  function Candidate(name: JsString, suffix: nat): JsString {
    if suffix < 2 then name else name + Decimal(suffix)
  }

  lemma {:induction false} DecimalInjective(m: nat, n: nat)
    ensures Decimal(m) == Decimal(n) ==> m == n
    ensures Decimal(m) != [] && IsDigit(Decimal(m)[|Decimal(m)| - 1]) && forall u <- Decimal(m) :: IsDigit(u)
  {
    if m >= 10 { DecimalInjective(m / 10, if n >= 10 then n / 10 else n); }
    if Decimal(m) == Decimal(n) && m >= 10 && n >= 10 {
      assert Decimal(m)[..|Decimal(m)| - 1] == Decimal(m / 10) && Decimal(n)[..|Decimal(n)| - 1] == Decimal(n / 10);
      assert Decimal(m)[|Decimal(m)| - 1] == 48 + m % 10 && Decimal(n)[|Decimal(n)| - 1] == 48 + n % 10;
    }
    if m >= 10 { DecimalNotEmpty(m / 10); }
    if n >= 10 { DecimalNotEmpty(n / 10); }
  }

  lemma {:induction false} DecimalNotEmpty(n: nat)
    ensures Decimal(n) != []
  {
  }

  lemma {:induction false} CandidatesDiffer(name: JsString, i: nat, j: nat)
    requires 1 <= i < j
    ensures Candidate(name, i) != Candidate(name, j)
  {
    DecimalInjective(i, j);
    DecimalInjective(j, i);
    assert Candidate(name, j)[|name|..] == Decimal(j);
    if i >= 2 { assert Candidate(name, i)[|name|..] == Decimal(i); }
  }

  // ----- the search for a free name -----------------------------------------------------------

  /** The used names that are still ahead of the search. */
  ghost function Ahead(name: JsString, used: set<JsString>, suffix: nat): set<JsString> {
    set x <- used | exists k :: k >= suffix && x == Candidate(name, k)
  }

  lemma {:induction false} OneLessAhead(name: JsString, used: set<JsString>, suffix: nat)
    requires suffix >= 1 && Candidate(name, suffix) in used
    ensures |Ahead(name, used, suffix + 1)| < |Ahead(name, used, suffix)|
  {
    var here, after := Ahead(name, used, suffix), Ahead(name, used, suffix + 1);
    var c := Candidate(name, suffix);
    if c in after {
      var k :| k >= suffix + 1 && c == Candidate(name, k);
      CandidatesDiffer(name, suffix, k);
    }
    assert c in here && after <= here - {c};
    Smaller(after, here - {c});
  }

  lemma {:induction false} Smaller(a: set<JsString>, b: set<JsString>)
    requires a <= b
    ensures |a| <= |b|
    decreases |a|
  {
    if a != {} {
      var x :| x in a;
      Smaller(a - {x}, b - {x});
    }
  }

  /** The first candidate from a suffix on that is not used: the search ends because the used names run out. */
  function FreeFrom(name: JsString, used: set<JsString>, suffix: nat): JsString
    requires suffix >= 1
    decreases |Ahead(name, used, suffix)|
  {
    if Candidate(name, suffix) !in used then Candidate(name, suffix)
    else
      OneLessAhead(name, used, suffix);
      FreeFrom(name, used, suffix + 1)
  }

  lemma {:induction false} FreeIs(name: JsString, used: set<JsString>, suffix: nat)
    requires suffix >= 1
    ensures FreeFrom(name, used, suffix) !in used
    ensures exists k :: k >= suffix && FreeFrom(name, used, suffix) == Candidate(name, k)
                        && forall i :: suffix <= i < k ==> Candidate(name, i) in used
    decreases |Ahead(name, used, suffix)|
  {
    if Candidate(name, suffix) in used {
      OneLessAhead(name, used, suffix);
      FreeIs(name, used, suffix + 1);
    }
  }

  // ----- the names of sorted IDs -----------------------------------------------------------------

  function Named(ids: seq<JsString>): seq<JsString> {
    if ids == [] then []
    else
      var names := Named(ids[..|ids| - 1]);
      names + [FreeFrom(Base(ids[|ids| - 1]), set n <- names, 1)]
  }

  function Inserted(sorted: seq<JsString>, id: JsString): seq<JsString> {
    if sorted == [] || LexLess(id, sorted[0]) then [id] + sorted else [sorted[0]] + Inserted(sorted[1..], id)
  }

  function Sorted(ids: seq<JsString>): seq<JsString> {
    if ids == [] then [] else Inserted(Sorted(ids[1..]), ids[0])
  }

  /** The map the generator works with; a repeated ID keeps its last name. */
  function NameMap(ids: seq<JsString>, names: seq<JsString>): map<JsString, JsString>
    requires |ids| == |names|
  {
    if ids == [] then map[] else NameMap(ids[..|ids| - 1], names[..|ids| - 1])[ids[|ids| - 1] := names[|ids| - 1]]
  }

  lemma {:induction false} NamedLength(ids: seq<JsString>)
    ensures |Named(ids)| == |ids|
  {
    if ids != [] { NamedLength(ids[..|ids| - 1]); }
  }

  function TypeNameMap(ids: seq<JsString>): map<JsString, JsString> {
    NamedLength(Sorted(ids));
    NameMap(Sorted(ids), Named(Sorted(ids)))
  }

  method FreeName(name: JsString, used: set<JsString>) returns (candidate: JsString)
    ensures candidate == FreeFrom(name, used, 1)
  {
    candidate := name;
    var suffix := 2;
    while candidate in used
      invariant suffix >= 2 && candidate == Candidate(name, suffix - 1)
      invariant FreeFrom(name, used, 1) == FreeFrom(name, used, suffix - 1)
      decreases |Ahead(name, used, suffix - 1)|
    {
      OneLessAhead(name, used, suffix - 1);
      candidate := name + Decimal(suffix);
      suffix := suffix + 1;
    }
  }

  lemma {:induction false} OneMore(ids: seq<JsString>, i: nat, given: seq<JsString>, name: JsString)
    requires i < |ids| && given == Named(ids[..i]) && |given| == i && name == FreeFrom(Base(ids[i]), set n <- given, 1)
    ensures given + [name] == Named(ids[..i + 1]) && (set n <- given + [name]) == (set n <- given) + {name}
    ensures NameMap(ids[..i + 1], given + [name]) == NameMap(ids[..i], given)[ids[i] := name]
  {
    assert ids[..i + 1][..i] == ids[..i] && (given + [name])[..i] == given;
  }

  method TypeNames(schemaIds: seq<JsString>) returns (names: map<JsString, JsString>)
    ensures names == TypeNameMap(schemaIds)
  {
    var ids := Sorted(schemaIds);
    var used: set<JsString> := {};
    ghost var given: seq<JsString> := [];
    names := map[];
    for i := 0 to |ids|
      invariant given == Named(ids[..i]) && |given| == i && used == set n <- given
      invariant names == NameMap(ids[..i], given)
    {
      var name := PascalCase(ids[i]);
      if name in RESERVED { name := name + Units("Schema"); }
      var candidate := FreeName(name, used);
      OneMore(ids, i, given, candidate);
      used := used + {candidate};
      names := names[ids[i] := candidate];
      given := given + [candidate];
    }
    assert ids[..|ids|] == ids;
  }

  // ----- what the names are ----------------------------------------------------------------------------

  lemma {:induction false} PascalIs(id: JsString, starting: bool)
    requires forall u <- id :: IsLetter(u) || IsDigit(u) || IsSeparator(u)
    ensures forall u <- PascalFrom(id, starting) :: IsLetter(u) || IsDigit(u)
  {
    if id != [] {
      assert id[0] in id && forall u <- id[1..] :: u in id;
      PascalIs(id[1..], if IsSeparator(id[0]) then true else false);
    }
  }

  lemma {:induction false} BaseIsIdentifier(id: JsString)
    requires IsSchemaId(id)
    ensures IsIdentifier(Base(id))
  {
    PascalIs(id, true);
    assert id[0] in id;
    var schema := Units("Schema");
    assert forall i :: 0 <= i < |schema| ==> IsLetter(schema[i]);
  }

  lemma {:induction false} CandidateIsIdentifier(name: JsString, suffix: nat)
    requires IsIdentifier(name)
    ensures IsIdentifier(Candidate(name, suffix))
  {
    DecimalInjective(suffix, suffix);
  }

  /** No reserved name ends in a digit, or in the last letter of Schema. */
  lemma {:induction false} ReservedEnds(name: JsString)
    requires name in RESERVED
    ensures name != [] && !IsDigit(name[|name| - 1]) && name[|name| - 1] != 97
  {
  }

  lemma {:induction false} BaseNotReserved(id: JsString)
    ensures Base(id) !in RESERVED
  {
    assert Units("Schema")[5] == 97;
    assert PascalCase(id) in RESERVED ==> Base(id)[|Base(id)| - 1] == 97;
    if Base(id) in RESERVED { ReservedEnds(Base(id)); }
  }

  lemma {:induction false} CandidateNotReserved(id: JsString, suffix: nat)
    ensures Candidate(Base(id), suffix) !in RESERVED
  {
    BaseNotReserved(id);
    if suffix >= 2 && Candidate(Base(id), suffix) in RESERVED {
      DecimalInjective(suffix, suffix);
      ReservedEnds(Candidate(Base(id), suffix));
    }
  }

  predicate IsUsable(name: JsString) {
    IsIdentifier(name) && name !in RESERVED
  }

  lemma {:induction false} FreeIsUsable(id: JsString, used: set<JsString>)
    requires IsSchemaId(id)
    ensures IsUsable(FreeFrom(Base(id), used, 1)) && FreeFrom(Base(id), used, 1) !in used
  {
    FreeIs(Base(id), used, 1);
    var k :| k >= 1 && FreeFrom(Base(id), used, 1) == Candidate(Base(id), k);
    BaseIsIdentifier(id);
    CandidateIsIdentifier(Base(id), k);
    CandidateNotReserved(id, k);
  }

  /** Every name is usable, and no two are the same. */
  lemma {:induction false} NamedAre(ids: seq<JsString>)
    requires forall id <- ids :: IsSchemaId(id)
    ensures |Named(ids)| == |ids| && Distinct(Named(ids)) && forall name <- Named(ids) :: IsUsable(name)
  {
    if ids != [] {
      var before, last := ids[..|ids| - 1], ids[|ids| - 1];
      NamedAre(before);
      FreeIsUsable(last, set n <- Named(before));
    }
  }

  lemma {:induction false} NameMapIs(ids: seq<JsString>, names: seq<JsString>)
    requires |ids| == |names| && forall i, j :: 0 <= i < j < |ids| ==> ids[i] != ids[j]
    ensures NameMap(ids, names).Keys == set id <- ids
    ensures forall i :: 0 <= i < |ids| ==> NameMap(ids, names)[ids[i]] == names[i]
  {
    if ids != [] {
      NameMapIs(ids[..|ids| - 1], names[..|ids| - 1]);
      assert ids == ids[..|ids| - 1] + [ids[|ids| - 1]];
    }
  }

  predicate Distinct(ids: seq<JsString>) {
    forall i, j :: 0 <= i < j < |ids| ==> ids[i] != ids[j]
  }

  predicate Ascending(ids: seq<JsString>) {
    forall i, j :: 0 <= i < j < |ids| ==> LexLess(ids[i], ids[j])
  }

  lemma {:induction false} InsertedIs(sorted: seq<JsString>, id: JsString)
    ensures forall x :: x in Inserted(sorted, id) <==> x == id || x in sorted
    ensures Ascending(sorted) && id !in sorted ==> Ascending(Inserted(sorted, id))
  {
    if sorted != [] {
      assert sorted == [sorted[0]] + sorted[1..];
      LexTotal(id, sorted[0]);
      if LexLess(id, sorted[0]) {
        if Ascending(sorted) {
          forall j | 0 < j < |sorted| ensures LexLess(id, sorted[j]) { LexTransitive(id, sorted[0], sorted[j]); }
        }
      } else {
        InsertedIs(sorted[1..], id);
        var rest := Inserted(sorted[1..], id);
        if Ascending(sorted) && id !in sorted {
          forall j | 0 <= j < |rest| ensures LexLess(sorted[0], rest[j]) { assert rest[j] in rest; }
        }
      }
    }
  }

  lemma {:induction false} SortedIs(ids: seq<JsString>)
    ensures forall x :: x in Sorted(ids) <==> x in ids
    ensures Distinct(ids) ==> Ascending(Sorted(ids))
  {
    if ids != [] {
      SortedIs(ids[1..]);
      InsertedIs(Sorted(ids[1..]), ids[0]);
      assert ids == [ids[0]] + ids[1..];
    }
  }

  lemma {:induction false} AscendingAlike(a: seq<JsString>, b: seq<JsString>)
    requires Ascending(a) && Ascending(b) && forall x :: x in a <==> x in b
    ensures a == b
  {
    assert a != [] ==> a[0] in b;
    assert b != [] ==> b[0] in a;
    if a != [] && b != [] {
      LexTotal(a[0], b[0]);
      assert a[0] == b[0];
      assert a == [a[0]] + a[1..] && b == [b[0]] + b[1..];
      LexTotal(a[0], a[0]);
      forall x ensures x in a[1..] <==> x in b[1..] {
        if x in a[1..] { assert x in b && x != b[0]; }
        if x in b[1..] { assert x in a && x != a[0]; }
      }
      AscendingAlike(a[1..], b[1..]);
    }
  }

  /** Every ID gets a name, and the names are distinct identifiers that shadow nothing. */
  lemma {:induction false} NamesAreUsable(ids: seq<JsString>)
    requires Distinct(ids) && forall id <- ids :: IsSchemaId(id)
    ensures TypeNameMap(ids).Keys == set id <- ids
    ensures forall id <- ids :: IsUsable(TypeNameMap(ids)[id])
    ensures forall x <- ids, y <- ids :: x != y ==> TypeNameMap(ids)[x] != TypeNameMap(ids)[y]
  {
    var sorted, names := Sorted(ids), Named(Sorted(ids));
    SortedIs(ids);
    LexIrreflexive(sorted);
    NamedAre(sorted);
    NameMapIs(sorted, names);
    MappedNames(sorted, names, TypeNameMap(ids));
  }

  lemma {:induction false} MappedNames(ids: seq<JsString>, names: seq<JsString>, m: map<JsString, JsString>)
    requires |ids| == |names| && m.Keys == (set id <- ids) && forall i :: 0 <= i < |ids| ==> m[ids[i]] == names[i]
    requires Distinct(names) && forall name <- names :: IsUsable(name)
    ensures forall id <- ids :: IsUsable(m[id])
    ensures forall x <- ids, y <- ids :: x != y ==> m[x] != m[y]
  {
    forall x <- ids, y <- ids | x != y ensures m[x] != m[y] {
      var i :| 0 <= i < |ids| && ids[i] == x;
      var j :| 0 <= j < |ids| && ids[j] == y;
    }
  }

  lemma {:induction false} LexIrreflexive(sorted: seq<JsString>)
    requires Ascending(sorted)
    ensures Distinct(sorted)
  {
    forall i, j | 0 <= i < j < |sorted| ensures sorted[i] != sorted[j] { LexTotal(sorted[i], sorted[j]); }
  }

  /** The same IDs get the same names, whatever order they are listed in. */
  lemma {:induction false} NamesKeepOrder(a: seq<JsString>, b: seq<JsString>)
    requires Distinct(a) && Distinct(b) && forall x :: x in a <==> x in b
    ensures TypeNameMap(a) == TypeNameMap(b)
  {
    SortedIs(a);
    SortedIs(b);
    AscendingAlike(Sorted(a), Sorted(b));
  }
}
