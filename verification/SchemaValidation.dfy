/** The Identity schema validator: a recursive walk over a JSON value and a
    JSON-Schema-shaped schema that appends diagnostics to a shared list. As the
    code does, keywords beside `$ref` (JSON Schema 2020-12 Core, section
    8.2.3.1) and beside `oneOf` (section 10.2.1.3) are ignored. */
module SchemaValidation {
  import opened Options
  import opened Ordering
  import PG = ParentGraph

  datatype Json =
    | Null | Bool(b: bool) | Number(text: string) | Str(s: string)
    | Arr(elements: seq<Json>) | Obj(members: map<string, Json>)

  datatype Schema = Schema(
    ref: string, oneOf: seq<Schema>, kind: string, enumeration: seq<Json>,
    properties: map<string, Schema>, required: seq<string>, additional: Option<bool>,
    items: Option<Schema>, minItems: Option<int>, maxItems: Option<int>,
    minLength: Option<int>, maxLength: Option<int>, format: string,
    minimum: Option<real>, maximum: Option<real>)

  type Definitions = map<string, Schema>

  /** Library parsers the validator consults; nothing is assumed of them. */
  datatype Formats = Formats(email: string -> bool, dateTime: string -> bool, float: string -> Option<real>)

  datatype Step = Field(name: string) | Index(i: nat)
  type Path = seq<Step>

  datatype Rule =
    | UnresolvedReference | NotOneOf | WrongType | NotInEnum | Required
    | Unknown | ItemCount | Length | Format | Range
  datatype Diagnostic = Diagnostic(rule: Rule, path: Path)

  // ---------------------------------------------------------------------
  // Leaf checks
  // ---------------------------------------------------------------------

  const PREFIX := "#/$defs/"

  predicate Resolves(defs: Definitions, ref: string) {
    PREFIX <= ref && ref[|PREFIX|..] in defs
  }

  function Target(defs: Definitions, ref: string): Schema
    requires Resolves(defs, ref)
  {
    defs[ref[|PREFIX|..]]
  }

  predicate IsDigit(c: char) {
    '0' <= c <= '9'
  }

  function Decimal(digits: string): nat
    requires forall i :: 0 <= i < |digits| ==> IsDigit(digits[i])
  {
    if digits == "" then 0
    else
      var last := digits[|digits| - 1];
      assert IsDigit(last);
      10 * Decimal(digits[..|digits| - 1]) + (last as int - '0' as int)
  }

  /** `strconv.ParseInt(text, 10, 64)` succeeds. */
  predicate ParsesInt64(text: string) {
    var negative := text != "" && text[0] == '-';
    var digits := if text != "" && (text[0] == '-' || text[0] == '+') then text[1..] else text;
    && digits != "" && (forall i :: 0 <= i < |digits| ==> IsDigit(digits[i]))
    && Decimal(digits) <= if negative then 0x8000_0000_0000_0000 else 0x7FFF_FFFF_FFFF_FFFF
  }

  /** Decimal digits of a number, without leading zeros. */
  function Digits(n: nat): (text: string)
    ensures text != "" && forall i :: 0 <= i < |text| ==> IsDigit(text[i])
    ensures Decimal(text) == n
  {
    var last := ['0' + (n % 10) as char];
    if n < 10 then (assert last[..0] == ""; last)
    else (assert (Digits(n / 10) + last)[..|Digits(n / 10)|] == Digits(n / 10); Digits(n / 10) + last)
  }

  function DecimalText(n: int): string {
    if n < 0 then "-" + Digits(-n) else Digits(n)
  }

  /** A whole number is an integer exactly when it fits into 64 bits. */
  lemma IntegersFit64Bits(n: int)
    ensures ParsesInt64(DecimalText(n)) <==> -0x8000_0000_0000_0000 <= n <= 0x7FFF_FFFF_FFFF_FFFF
  {
    var digits := Digits(if n < 0 then -n else n);
    if n < 0 {
      assert DecimalText(n)[0] == '-' && DecimalText(n)[1..] == digits;
    } else {
      assert IsDigit(digits[0]);
    }
  }

  predicate TypeMatches(kind: string, v: Json) {
    match kind
    case "object" => v.Obj?
    case "array" => v.Arr?
    case "string" => v.Str?
    case "boolean" => v.Bool?
    case "integer" => v.Number? && ParsesInt64(v.text)
    case "number" => v.Number?
    case _ => true
  }

  predicate Within(low: Option<int>, n: int, high: Option<int>) {
    (low.Some? ==> low.value <= n) && (high.Some? ==> n <= high.value)
  }

  predicate FormatFits(formats: Formats, format: string, s: string) {
    match format
    case "email" => formats.email(s)
    case "date-time" => formats.dateTime(s)
    case _ => true
  }

  predicate RangeFits(formats: Formats, s: Schema, text: string) {
    var x := formats.float(text);
    x.Some? ==> (s.minimum.Some? ==> s.minimum.value <= x.value) && (s.maximum.Some? ==> x.value <= s.maximum.value)
  }

  /** What the checks of a single value mean. */
  lemma ChecksMean(formats: Formats, s: Schema, v: Json, n: int, text: string)
    ensures TypeMatches("object", v) <==> v.Obj?
    ensures TypeMatches("array", v) <==> v.Arr?
    ensures TypeMatches("string", v) <==> v.Str?
    ensures TypeMatches("boolean", v) <==> v.Bool?
    ensures TypeMatches("number", v) <==> v.Number?
    ensures TypeMatches("integer", v) <==> v.Number? && ParsesInt64(v.text)
    ensures TypeMatches("", v)
    ensures !Within(s.minItems, n, s.maxItems) <==>
      (s.minItems.Some? && n < s.minItems.value) || (s.maxItems.Some? && n > s.maxItems.value)
    ensures formats.float(text).Some? ==> (!RangeFits(formats, s, text) <==>
      (s.minimum.Some? && formats.float(text).value < s.minimum.value)
      || (s.maximum.Some? && formats.float(text).value > s.maximum.value))
    ensures FormatFits(formats, "email", text) <==> formats.email(text)
    ensures FormatFits(formats, "date-time", text) <==> formats.dateTime(text)
    ensures FormatFits(formats, "", text)
  {
  }

  // ---------------------------------------------------------------------
  // Chains of references that consume nothing of the value
  // ---------------------------------------------------------------------

  /** The definitions a schema refers to before it looks into the value. */
  function Refs(s: Schema): set<string> {
    if s.ref != "" then (if PREFIX <= s.ref then {s.ref[|PREFIX|..]} else {}) else AllRefs(s.oneOf)
  }

  function AllRefs(ss: seq<Schema>): set<string> {
    if ss == [] then {} else Refs(ss[0]) + AllRefs(ss[1..])
  }

  ghost predicate RefPath(defs: Definitions, p: seq<string>) {
    && (forall i :: 0 <= i < |p| ==> p[i] in defs)
    && (forall i :: 0 <= i < |p| - 1 ==> p[i + 1] in Refs(defs[p[i]]))
  }

  ghost predicate RefCycle(defs: Definitions, p: seq<string>) {
    RefPath(defs, p) && |p| >= 2 && p[0] == p[|p| - 1]
  }

  /** No chain of references and choices leads back to where it started. */
  ghost predicate NoRefCycle(defs: Definitions) {
    forall p :: !RefCycle(defs, p)
  }

  type Rank = map<string, nat>

  /** Every definition ranks above the definitions it refers to. */
  ghost predicate Ranks(defs: Definitions, rank: Rank) {
    rank.Keys == defs.Keys && forall n, m :: n in defs && m in defs && m in Refs(defs[n]) ==> rank[m] < rank[n]
  }

  ghost predicate Guarded(defs: Definitions) {
    exists rank :: Ranks(defs, rank)
  }

  ghost function RankOf(defs: Definitions): (rank: Rank)
    requires Guarded(defs)
    ensures Ranks(defs, rank)
  {
    var rank :| Ranks(defs, rank);
    rank
  }

  /** One more than the highest rank a schema refers to. */
  ghost function Level(rank: Rank, s: Schema): nat {
    if s.ref != "" then
      (if PREFIX <= s.ref && s.ref[|PREFIX|..] in rank then rank[s.ref[|PREFIX|..]] + 1 else 0)
    else Levels(rank, s.oneOf)
  }

  ghost function Levels(rank: Rank, ss: seq<Schema>): nat {
    if ss == [] then 0
    else
      var first, rest := Level(rank, ss[0]), Levels(rank, ss[1..]);
      if first > rest then first else rest
  }

  lemma LevelBelow(rank: Rank, s: Schema, bound: nat)
    requires forall m :: m in rank && m in Refs(s) ==> rank[m] < bound
    ensures Level(rank, s) <= bound
    decreases s, 1
  {
    if s.ref == "" { LevelsBelow(rank, s.oneOf, bound); }
  }

  lemma LevelsBelow(rank: Rank, ss: seq<Schema>, bound: nat)
    requires forall m :: m in rank && m in AllRefs(ss) ==> rank[m] < bound
    ensures Levels(rank, ss) <= bound
    decreases ss, 0
  {
    if ss != [] {
      LevelBelow(rank, ss[0], bound);
      LevelsBelow(rank, ss[1..], bound);
    }
  }

  /** Following a reference lowers the level. */
  lemma ReferenceDescends(defs: Definitions, s: Schema)
    requires Guarded(defs) && s.ref != "" && Resolves(defs, s.ref)
    ensures Level(RankOf(defs), Target(defs, s.ref)) < Level(RankOf(defs), s)
  {
    var name := s.ref[|PREFIX|..];
    LevelBelow(RankOf(defs), defs[name], RankOf(defs)[name]);
  }

  lemma ChoiceDescends(rank: Rank, ss: seq<Schema>, i: nat)
    requires i < |ss|
    ensures Level(rank, ss[i]) <= Levels(rank, ss)
  {
    if i > 0 { ChoiceDescends(rank, ss[1..], i - 1); }
  }

  // ---------------------------------------------------------------------
  // What it means for a value to conform
  // ---------------------------------------------------------------------

  ghost predicate Conforms(defs: Definitions, formats: Formats, s: Schema, v: Json)
    requires Guarded(defs)
    decreases v, 2, Level(RankOf(defs), s), s, 2
  {
    if s.ref != "" then
      Resolves(defs, s.ref) && (ReferenceDescends(defs, s); Conforms(defs, formats, Target(defs, s.ref), v))
    else if s.oneOf != [] then
      exists i :: 0 <= i < |s.oneOf| && OnlyMatch(defs, formats, s, i, v)
    else
      && TypeMatches(s.kind, v)
      && (s.enumeration != [] ==> v in s.enumeration)
      && InsideConforms(defs, formats, s, v)
  }

  /** The value conforms to the i-th shape of a choice and to no other. */
  ghost predicate OnlyMatch(defs: Definitions, formats: Formats, s: Schema, i: nat, v: Json)
    requires Guarded(defs) && s.ref == "" && i < |s.oneOf|
    decreases v, 2, Level(RankOf(defs), s), s, 1
  {
    Matches(defs, formats, s, i, v) && forall j :: 0 <= j < |s.oneOf| && j != i ==> !Matches(defs, formats, s, j, v)
  }

  /** The value conforms to the i-th shape of a choice. */
  ghost predicate Matches(defs: Definitions, formats: Formats, s: Schema, i: nat, v: Json)
    requires Guarded(defs) && s.ref == "" && i < |s.oneOf|
    decreases v, 2, Level(RankOf(defs), s), s, 0
  {
    ChoiceDescends(RankOf(defs), s.oneOf, i);
    Conforms(defs, formats, s.oneOf[i], v)
  }

  /** What a plain schema asks of the inside of a value. */
  ghost predicate InsideConforms(defs: Definitions, formats: Formats, s: Schema, v: Json)
    requires Guarded(defs)
    decreases v, 1
  {
    match v
    case Obj(members) =>
      && (forall r :: r in s.required ==> r in members)
      && (forall k :: k in members ==> MemberConforms(defs, formats, s, v, k))
    case Arr(elements) =>
      && Within(s.minItems, |elements|, s.maxItems)
      && (s.items.Some? ==> forall i :: 0 <= i < |elements| ==> Conforms(defs, formats, s.items.value, elements[i]))
    case Str(text) => Within(s.minLength, |text|, s.maxLength) && FormatFits(formats, s.format, text)
    case Number(text) => RangeFits(formats, s, text)
    case _ => true
  }

  ghost predicate MemberConforms(defs: Definitions, formats: Formats, s: Schema, v: Json, k: string)
    requires Guarded(defs) && v.Obj? && k in v.members
    decreases v, 0
  {
    if k in s.properties then Conforms(defs, formats, s.properties[k], v.members[k]) else s.additional != Some(false)
  }

  // ---------------------------------------------------------------------
  // The diagnostics of a value
  // ---------------------------------------------------------------------

  function Flagged(bad: bool, rule: Rule, path: Path): seq<Diagnostic> {
    if bad then [Diagnostic(rule, path)] else []
  }

  function Missing(required: seq<string>, members: map<string, Json>, path: Path): seq<Diagnostic> {
    if required == [] then []
    else
      Missing(required[..|required| - 1], members, path)
      + Flagged(required[|required| - 1] !in members, Required, path + [Field(required[|required| - 1])])
  }

  ghost function Diagnose(defs: Definitions, formats: Formats, s: Schema, v: Json, path: Path): seq<Diagnostic>
    requires Guarded(defs)
    decreases v, 2, Level(RankOf(defs), s), s, 1
  {
    if s.ref != "" then
      if Resolves(defs, s.ref) then
        ReferenceDescends(defs, s); Diagnose(defs, formats, Target(defs, s.ref), v, path)
      else [Diagnostic(UnresolvedReference, path)]
    else if s.oneOf != [] then Flagged(Clean(defs, formats, s, |s.oneOf|, v, path) != 1, NotOneOf, path)
    else if !TypeMatches(s.kind, v) then [Diagnostic(WrongType, path)]
    else
      Flagged(s.enumeration != [] && v !in s.enumeration, NotInEnum, path)
      + InsideDiagnostics(defs, formats, s, v, path)
  }

  ghost function InsideDiagnostics(defs: Definitions, formats: Formats, s: Schema, v: Json, path: Path): seq<Diagnostic>
    requires Guarded(defs)
    decreases v, 1
  {
    match v
    case Obj(members) =>
      Missing(s.required, members, path) + OfMembers(defs, formats, s, v, SortedMembers(v), |v.members|, path)
    case Arr(elements) =>
      Flagged(!Within(s.minItems, |elements|, s.maxItems), ItemCount, path)
      + (if s.items.Some? then OfElements(defs, formats, s.items.value, v, |elements|, path) else [])
    case Str(text) =>
      Flagged(!Within(s.minLength, |text|, s.maxLength), Length, path)
      + Flagged(!FormatFits(formats, s.format, text), Format, path)
    case Number(text) => Flagged(!RangeFits(formats, s, text), Range, path)
    case _ => []
  }

  /** How many of the first n shapes leave no diagnostic. */
  ghost function Clean(defs: Definitions, formats: Formats, s: Schema, n: nat, v: Json, path: Path): nat
    requires Guarded(defs) && s.ref == "" && n <= |s.oneOf|
    decreases v, 2, Level(RankOf(defs), s), s, 0, n
  {
    if n == 0 then 0
    else
      ChoiceDescends(RankOf(defs), s.oneOf, n - 1);
      Clean(defs, formats, s, n - 1, v, path)
      + if Diagnose(defs, formats, s.oneOf[n - 1], v, path) == [] then 1 else 0
  }

  ghost function SortedMembers(v: Json): (keys: seq<string>)
    requires v.Obj?
    ensures |keys| == |v.members|
    ensures forall i :: 0 <= i < |keys| ==> keys[i] in v.members
    ensures forall k :: k in v.members ==> k in keys
  {
    SortedKeysList(v.members.Keys);
    SortedKeys(v.members.Keys)
  }

  lemma SortedKeysList(names: set<string>)
    ensures var keys := SortedKeys(names);
      && |keys| == |names|
      && (forall i :: 0 <= i < |keys| ==> keys[i] in names)
      && (forall k :: k in names ==> k in keys)
  {
    SortedKeysFacts(names);
    var keys := SortedKeys(names);
    assert |multiset(keys)| == |multiset(names)|;
    assert forall i :: 0 <= i < |keys| ==> keys[i] in keys;
  }

  ghost function OfMember(defs: Definitions, formats: Formats, s: Schema, v: Json, k: string,
                          path: Path): seq<Diagnostic>
    requires Guarded(defs) && v.Obj? && k in v.members
    decreases v, 0, 0
  {
    if k in s.properties then Diagnose(defs, formats, s.properties[k], v.members[k], path + [Field(k)])
    else Flagged(s.additional == Some(false), Unknown, path + [Field(k)])
  }

  ghost function OfMembers(defs: Definitions, formats: Formats, s: Schema, v: Json, keys: seq<string>, n: nat,
                           path: Path): seq<Diagnostic>
    requires Guarded(defs) && v.Obj? && n <= |keys| && forall i :: 0 <= i < |keys| ==> keys[i] in v.members
    decreases v, 0, n + 1
  {
    if n == 0 then []
    else OfMembers(defs, formats, s, v, keys, n - 1, path) + OfMember(defs, formats, s, v, keys[n - 1], path)
  }

  ghost function OfElements(defs: Definitions, formats: Formats, item: Schema, v: Json, n: nat,
                            path: Path): seq<Diagnostic>
    requires Guarded(defs) && v.Arr? && n <= |v.elements|
    decreases v, 0, n
  {
    if n == 0 then []
    else OfElements(defs, formats, item, v, n - 1, path)
         + Diagnose(defs, formats, item, v.elements[n - 1], path + [Index(n - 1)])
  }

  // ---------------------------------------------------------------------
  // No diagnostic exactly when the value conforms
  // ---------------------------------------------------------------------

  lemma {:induction false} MissingEmpty(required: seq<string>, members: map<string, Json>, path: Path)
    ensures Missing(required, members, path) == [] <==> forall r :: r in required ==> r in members
  {
    if required != [] {
      var before, last := required[..|required| - 1], required[|required| - 1];
      MissingEmpty(before, members, path);
      BothEmpty(Missing(before, members, path), Flagged(last !in members, Required, path + [Field(last)]));
      assert required == before + [last];
      assert forall r :: r in required <==> r in before || r == last;
    }
  }

  lemma {:induction false} NoDiagnosticIffConforms(defs: Definitions, formats: Formats, s: Schema, v: Json, path: Path)
    requires Guarded(defs)
    ensures Diagnose(defs, formats, s, v, path) == [] <==> Conforms(defs, formats, s, v)
    decreases v, 2, Level(RankOf(defs), s), s, 1
  {
    if s.ref != "" {
      if Resolves(defs, s.ref) {
        ReferenceDescends(defs, s);
        NoDiagnosticIffConforms(defs, formats, Target(defs, s.ref), v, path);
      }
    } else if s.oneOf != [] {
      ChoiceIff(defs, formats, s, v, path);
    } else {
      PlainIff(defs, formats, s, v, path);
    }
  }

  lemma BothEmpty<T>(a: seq<T>, b: seq<T>)
    ensures a + b == [] <==> a == [] && b == []
  {
    assert |a + b| == |a| + |b|;
  }

  lemma {:induction false} ObjectIff(defs: Definitions, formats: Formats, s: Schema, v: Json, path: Path)
    requires Guarded(defs) && s.ref == "" && s.oneOf == [] && v.Obj?
    ensures InsideDiagnostics(defs, formats, s, v, path) == [] <==> InsideConforms(defs, formats, s, v)
    decreases v, 1, 0
  {
    hide OfMembers, OfMember, Missing, Diagnose, Conforms;
    var missing := Missing(s.required, v.members, path);
    var inner := OfMembers(defs, formats, s, v, SortedMembers(v), |v.members|, path);
    MissingEmpty(s.required, v.members, path);
    MembersIff(defs, formats, s, v, SortedMembers(v), |v.members|, path);
    BothEmpty(missing, inner);
    assert InsideDiagnostics(defs, formats, s, v, path) == missing + inner;
  }

  lemma {:induction false} ArrayIff(defs: Definitions, formats: Formats, s: Schema, v: Json, path: Path)
    requires Guarded(defs) && s.ref == "" && s.oneOf == [] && v.Arr?
    ensures InsideDiagnostics(defs, formats, s, v, path) == [] <==> InsideConforms(defs, formats, s, v)
    decreases v, 1, 0
  {
    var counted := Flagged(!Within(s.minItems, |v.elements|, s.maxItems), ItemCount, path);
    if s.items.Some? {
      var inner := OfElements(defs, formats, s.items.value, v, |v.elements|, path);
      ElementsIff(defs, formats, s.items.value, v, |v.elements|, path);
      BothEmpty(counted, inner);
      assert InsideDiagnostics(defs, formats, s, v, path) == counted + inner;
    }
  }

  lemma {:induction false} InsideIff(defs: Definitions, formats: Formats, s: Schema, v: Json, path: Path)
    requires Guarded(defs) && s.ref == "" && s.oneOf == []
    ensures InsideDiagnostics(defs, formats, s, v, path) == [] <==> InsideConforms(defs, formats, s, v)
    decreases v, 1, 1
  {
    if v.Obj? { ObjectIff(defs, formats, s, v, path); }
    else if v.Arr? { ArrayIff(defs, formats, s, v, path); }
  }

  lemma {:induction false} PlainIff(defs: Definitions, formats: Formats, s: Schema, v: Json, path: Path)
    requires Guarded(defs) && s.ref == "" && s.oneOf == []
    ensures Diagnose(defs, formats, s, v, path) == [] <==> Conforms(defs, formats, s, v)
    decreases v, 2, Level(RankOf(defs), s), s, 0
  {
    if TypeMatches(s.kind, v) {
      InsideIff(defs, formats, s, v, path);
      var enumerated := Flagged(s.enumeration != [] && v !in s.enumeration, NotInEnum, path);
      BothEmpty(enumerated, InsideDiagnostics(defs, formats, s, v, path));
    }
  }

  function Trues(flags: seq<bool>): nat {
    if flags == [] then 0 else Trues(flags[..|flags| - 1]) + if flags[|flags| - 1] then 1 else 0
  }

  lemma {:induction false} NoTrues(flags: seq<bool>)
    ensures Trues(flags) == 0 <==> forall i :: 0 <= i < |flags| ==> !flags[i]
  {
    if flags != [] { NoTrues(flags[..|flags| - 1]); }
  }

  lemma {:induction false} OneTrue(flags: seq<bool>)
    ensures Trues(flags) == 1 <==> exists i :: OnlyTrue(flags, i)
  {
    if flags != [] {
      var before, n := flags[..|flags| - 1], |flags| - 1;
      OneTrue(before);
      NoTrues(before);
      if Trues(flags) == 1 {
        if flags[n] {
          assert forall j :: 0 <= j < n ==> !before[j];
          assert OnlyTrue(flags, n);
        } else {
          var i :| OnlyTrue(before, i);
          assert OnlyTrue(flags, i);
        }
      }
      if i :| OnlyTrue(flags, i) {
        if i < n { assert OnlyTrue(before, i); } else { assert forall j :: 0 <= j < |before| ==> !before[j]; }
      }
    }
  }

  /** Which shapes of a choice the value conforms to. */
  ghost predicate FlagsOf(defs: Definitions, formats: Formats, s: Schema, v: Json, flags: seq<bool>)
    requires Guarded(defs) && s.ref == ""
  {
    |flags| == |s.oneOf| && forall i :: 0 <= i < |flags| ==> flags[i] == Matches(defs, formats, s, i, v)
  }

  lemma {:induction false} CleanCounts(defs: Definitions, formats: Formats, s: Schema, n: nat, v: Json, path: Path,
                                       flags: seq<bool>)
    requires Guarded(defs) && s.ref == "" && n <= |s.oneOf| && FlagsOf(defs, formats, s, v, flags)
    ensures Clean(defs, formats, s, n, v, path) == Trues(flags[..n])
    decreases v, 2, Level(RankOf(defs), s), s, 0, n
  {
    hide Diagnose, Conforms, OnlyMatch, Levels;
    if n > 0 {
      CleanCounts(defs, formats, s, n - 1, v, path, flags);
      ChoiceDescends(RankOf(defs), s.oneOf, n - 1);
      NoDiagnosticIffConforms(defs, formats, s.oneOf[n - 1], v, path);
      assert flags[..n][..n - 1] == flags[..n - 1];
      assert flags[n - 1] == Matches(defs, formats, s, n - 1, v);
    }
  }

  lemma {:induction false} ChoiceIff(defs: Definitions, formats: Formats, s: Schema, v: Json, path: Path)
    requires Guarded(defs) && s.ref == "" && s.oneOf != []
    ensures Diagnose(defs, formats, s, v, path) == [] <==> Conforms(defs, formats, s, v)
    decreases v, 2, Level(RankOf(defs), s), s, 0, |s.oneOf| + 1
  {
    hide Conforms, Matches, Levels;
    var flags := seq(|s.oneOf|, i requires 0 <= i < |s.oneOf| => Matches(defs, formats, s, i, v));
    CleanCounts(defs, formats, s, |s.oneOf|, v, path, flags);
    assert flags[..|s.oneOf|] == flags;
    OneTrue(flags);
    ChoiceReads(defs, formats, s, v, flags);
  }

  ghost predicate OnlyTrue(flags: seq<bool>, i: int) {
    0 <= i < |flags| && flags[i] && forall j :: 0 <= j < |flags| && j != i ==> !flags[j]
  }

  lemma ChoiceReads(defs: Definitions, formats: Formats, s: Schema, v: Json, flags: seq<bool>)
    requires Guarded(defs) && s.ref == "" && s.oneOf != [] && FlagsOf(defs, formats, s, v, flags)
    ensures Conforms(defs, formats, s, v) <==> exists i :: OnlyTrue(flags, i)
  {
    forall i | 0 <= i < |s.oneOf| ensures OnlyMatch(defs, formats, s, i, v) <==> OnlyTrue(flags, i) {
      ReadsAt(defs, formats, s, v, flags, i);
    }
    if i :| OnlyTrue(flags, i) { assert OnlyMatch(defs, formats, s, i, v); }
  }

  lemma ReadsAt(defs: Definitions, formats: Formats, s: Schema, v: Json, flags: seq<bool>, i: nat)
    requires Guarded(defs) && s.ref == "" && i < |s.oneOf| && FlagsOf(defs, formats, s, v, flags)
    ensures OnlyMatch(defs, formats, s, i, v) <==> OnlyTrue(flags, i)
  {
  }

  lemma {:induction false} MemberIff(defs: Definitions, formats: Formats, s: Schema, v: Json, k: string, path: Path)
    requires Guarded(defs) && v.Obj? && k in v.members
    ensures OfMember(defs, formats, s, v, k, path) == [] <==> MemberConforms(defs, formats, s, v, k)
    decreases v, 0, 0
  {
    if k in s.properties {
      NoDiagnosticIffConforms(defs, formats, s.properties[k], v.members[k], path + [Field(k)]);
    }
  }

  lemma {:induction false} MembersIff(defs: Definitions, formats: Formats, s: Schema, v: Json, keys: seq<string>,
                                      n: nat, path: Path)
    requires Guarded(defs) && v.Obj? && n <= |keys| && forall i :: 0 <= i < |keys| ==> keys[i] in v.members
    ensures OfMembers(defs, formats, s, v, keys, n, path) == [] <==>
            forall i :: 0 <= i < n ==> MemberConforms(defs, formats, s, v, keys[i])
    decreases v, 0, n + 1
  {
    if n > 0 {
      MembersIff(defs, formats, s, v, keys, n - 1, path);
      MemberIff(defs, formats, s, v, keys[n - 1], path);
      BothEmpty(OfMembers(defs, formats, s, v, keys, n - 1, path), OfMember(defs, formats, s, v, keys[n - 1], path));
    }
  }

  lemma {:induction false} ElementsIff(defs: Definitions, formats: Formats, item: Schema, v: Json, n: nat, path: Path)
    requires Guarded(defs) && v.Arr? && n <= |v.elements|
    ensures OfElements(defs, formats, item, v, n, path) == [] <==>
            forall i :: 0 <= i < n ==> Conforms(defs, formats, item, v.elements[i])
    decreases v, 0, n
  {
    hide Conforms, Diagnose, Guarded;
    if n > 0 {
      ElementsIff(defs, formats, item, v, n - 1, path);
      NoDiagnosticIffConforms(defs, formats, item, v.elements[n - 1], path + [Index(n - 1)]);
      BothEmpty(OfElements(defs, formats, item, v, n - 1, path),
                Diagnose(defs, formats, item, v.elements[n - 1], path + [Index(n - 1)]));
    }
  }

  // ---------------------------------------------------------------------
  // Which diagnostics, and where
  // ---------------------------------------------------------------------

  /** The schema at the end of the chain of references that a schema begins, unless
      a reference on the way does not resolve. */
  ghost function Plain(defs: Definitions, s: Schema): (r: Option<Schema>)
    requires Guarded(defs)
    ensures r.Some? ==> r.value.ref == ""
    decreases Level(RankOf(defs), s)
  {
    if s.ref == "" then Some(s)
    else if !Resolves(defs, s.ref) then None
    else (ReferenceDescends(defs, s); Plain(defs, Target(defs, s.ref)))
  }

  /** A schema with the value it is to hold for. */
  datatype Spot = Spot(s: Schema, v: Json)

  /** One step into a value of the right type, to the schema declared there. A
      choice is not entered: what fails inside its shapes is not reported. */
  ghost function Enter(defs: Definitions, spot: Spot, step: Step): Option<Spot>
    requires Guarded(defs)
  {
    match Plain(defs, spot.s)
    case None => None
    case Some(s) =>
      if s.oneOf != [] || !TypeMatches(s.kind, spot.v) then None
      else
        match step
        case Field(k) =>
          if spot.v.Obj? && k in spot.v.members && k in s.properties then Some(Spot(s.properties[k], spot.v.members[k]))
          else None
        case Index(i) =>
          if spot.v.Arr? && i < |spot.v.elements| && s.items.Some? then Some(Spot(s.items.value, spot.v.elements[i]))
          else None
  }

  /** What a path leads to, in a value and its schema together. */
  ghost function Lookup(defs: Definitions, spot: Spot, path: Path): Option<Spot>
    requires Guarded(defs)
    decreases |path|
  {
    if path == [] then Some(spot)
    else match Enter(defs, spot, path[0])
      case None => None
      case Some(inner) => Lookup(defs, inner, path[1..])
  }

  function Once(b: bool): nat {
    if b then 1 else 0
  }

  /** How often a value breaks a rule of its schema, as far as the rule is about
      the value itself; `name` is the member that a rule about members names. A
      required name counts as often as it is listed. */
  ghost function Broken(defs: Definitions, formats: Formats, spot: Spot, rule: Rule, name: string): nat
    requires Guarded(defs)
  {
    var v := spot.v;
    match Plain(defs, spot.s)
    case None => Once(rule == UnresolvedReference)
    case Some(s) =>
      if s.oneOf != []
          then Once(rule == NotOneOf && !exists i :: 0 <= i < |s.oneOf| && OnlyMatch(defs, formats, s, i, v))
      else if !TypeMatches(s.kind, v) then Once(rule == WrongType)
      else match rule
        case NotInEnum => Once(s.enumeration != [] && v !in s.enumeration)
        case Required => if v.Obj? && name !in v.members then multiset(s.required)[name] else 0
        case Unknown => Once(v.Obj? && name in v.members && name !in s.properties && s.additional == Some(false))
        case ItemCount => Once(v.Arr? && !Within(s.minItems, |v.elements|, s.maxItems))
        case Length => Once(v.Str? && !Within(s.minLength, |v.s|, s.maxLength))
        case Format => Once(v.Str? && !FormatFits(formats, s.format, v.s))
        case Range => Once(v.Number? && !RangeFits(formats, s, v.text))
        case _ => 0
  }

  predicate NamesMember(rule: Rule) {
    rule == Required || rule == Unknown
  }

  /** How often a rule is broken at a place: for a rule about members the last step
      of the place is the name, and the value is the object before it. */
  ghost function Violations(defs: Definitions, formats: Formats, spot: Spot, rule: Rule, place: Path): nat
    requires Guarded(defs)
  {
    if NamesMember(rule) then
      if place == [] || !place[|place| - 1].Field? then 0
      else match Lookup(defs, spot, place[..|place| - 1])
        case None => 0
        case Some(inner) => Broken(defs, formats, inner, rule, place[|place| - 1].name)
    else match Lookup(defs, spot, place)
      case None => 0
      case Some(inner) => Broken(defs, formats, inner, rule, "")
  }

  function Reported(list: seq<Diagnostic>, d: Diagnostic): nat {
    multiset(list)[d]
  }

  /** All diagnostics of a list lie at a path or below it. */
  ghost predicate Below(list: seq<Diagnostic>, path: Path) {
    forall d :: d in list ==> path <= d.path
  }

  /** They lie below members, or below elements. */
  ghost predicate BelowSteps(list: seq<Diagnostic>, path: Path, fields: bool) {
    forall d :: d in list ==> path <= d.path && |d.path| > |path| && d.path[|path|].Field? == fields
  }

  lemma NotReported(list: seq<Diagnostic>, path: Path, d: Diagnostic)
    requires Below(list, path) && !(path <= d.path)
    ensures Reported(list, d) == 0
  {
    assert d !in list;
  }

  lemma NotReportedHere(list: seq<Diagnostic>, path: Path, fields: bool, d: Diagnostic)
    requires BelowSteps(list, path, fields)
    requires |d.path| <= |path| || d.path[|path|].Field? != fields
    ensures Reported(list, d) == 0
  {
    assert d !in list;
  }

  lemma ReportedTogether(a: seq<Diagnostic>, b: seq<Diagnostic>, d: Diagnostic)
    ensures Reported(a + b, d) == Reported(a, d) + Reported(b, d)
  {
  }

  lemma FlaggedOnce(bad: bool, rule: Rule, path: Path, d: Diagnostic)
    ensures Reported(Flagged(bad, rule, path), d) == Once(bad && d == Diagnostic(rule, path))
    ensures Below(Flagged(bad, rule, path), path)
  {
  }

  lemma PathsMatch(path: Path, q: Path, r: Path)
    ensures path + q == path + r <==> q == r
    ensures path <= path + q
  {
    if path + q == path + r {
      assert (path + q)[|path|..] == q && (path + r)[|path|..] == r;
    }
  }

  /** Diagnostics are below the path that validation started from. */
  lemma {:induction false} DiagnosticsBelow(defs: Definitions, formats: Formats, s: Schema, v: Json, path: Path)
    requires Guarded(defs)
    ensures Below(Diagnose(defs, formats, s, v, path), path)
    decreases v, 2, Level(RankOf(defs), s), s, 1
  {
    if s.ref != "" {
      if Resolves(defs, s.ref) {
        ReferenceDescends(defs, s);
        DiagnosticsBelow(defs, formats, Target(defs, s.ref), v, path);
      }
    } else if s.oneOf == [] && TypeMatches(s.kind, v) {
      InsideBelow(defs, formats, s, v, path);
    }
  }

  lemma {:induction false} MissingBelow(required: seq<string>, members: map<string, Json>, path: Path)
    ensures Below(Missing(required, members, path), path)
  {
    if required != [] { MissingBelow(required[..|required| - 1], members, path); }
  }

  lemma {:induction false} InsideBelow(defs: Definitions, formats: Formats, s: Schema, v: Json, path: Path)
    requires Guarded(defs)
    ensures Below(InsideDiagnostics(defs, formats, s, v, path), path)
    decreases v, 1
  {
    hide Diagnose, Guarded;
    if v.Obj? {
      MissingBelow(s.required, v.members, path);
      MembersBelow(defs, formats, s, v, SortedMembers(v), |v.members|, path);
    } else if v.Arr? && s.items.Some? {
      ElementsBelow(defs, formats, s.items.value, v, |v.elements|, path);
    }
  }

  lemma {:induction false} MemberBelow(defs: Definitions, formats: Formats, s: Schema, v: Json, k: string, path: Path)
    requires Guarded(defs) && v.Obj? && k in v.members
    ensures Below(OfMember(defs, formats, s, v, k, path), path + [Field(k)])
    decreases v, 0, 0
  {
    hide Diagnose, Guarded;
    if k in s.properties {
      DiagnosticsBelow(defs, formats, s.properties[k], v.members[k], path + [Field(k)]);
    }
  }

  lemma {:induction false} MembersBelow(defs: Definitions, formats: Formats, s: Schema, v: Json, keys: seq<string>,
                                        n: nat, path: Path)
    requires Guarded(defs) && v.Obj? && n <= |keys| && forall i :: 0 <= i < |keys| ==> keys[i] in v.members
    ensures BelowSteps(OfMembers(defs, formats, s, v, keys, n, path), path, true)
    decreases v, 0, n + 1
  {
    hide Diagnose, Guarded, OfMember;
    if n > 0 {
      MembersBelow(defs, formats, s, v, keys, n - 1, path);
      MemberBelow(defs, formats, s, v, keys[n - 1], path);
      BelowStep(OfMember(defs, formats, s, v, keys[n - 1], path), path, Field(keys[n - 1]));
    }
  }

  lemma BelowStep(list: seq<Diagnostic>, path: Path, step: Step)
    requires Below(list, path + [step])
    ensures BelowSteps(list, path, step.Field?)
  {
    forall d | d in list ensures path <= d.path && |d.path| > |path| && d.path[|path|] == step {
      assert (path + [step])[|path|] == step;
    }
  }

  lemma {:induction false} ElementsBelow(defs: Definitions, formats: Formats, item: Schema, v: Json, n: nat, path: Path)
    requires Guarded(defs) && v.Arr? && n <= |v.elements|
    ensures BelowSteps(OfElements(defs, formats, item, v, n, path), path, false)
    decreases v, 0, n
  {
    hide Diagnose, Guarded;
    if n > 0 {
      ElementsBelow(defs, formats, item, v, n - 1, path);
      DiagnosticsBelow(defs, formats, item, v.elements[n - 1], path + [Index(n - 1)]);
      BelowStep(Diagnose(defs, formats, item, v.elements[n - 1], path + [Index(n - 1)]), path, Index(n - 1));
    }
  }

  /** Missing names are reported at their own place, as often as they are listed. */
  lemma {:induction false} MissingReported(required: seq<string>, members: map<string, Json>, path: Path, d: Diagnostic)
    ensures Reported(Missing(required, members, path), d) ==
      if d.rule == Required && |d.path| == |path| + 1 && path <= d.path && d.path[|path|].Field?
         && d.path[|path|].name !in members
      then multiset(required)[d.path[|path|].name] else 0
  {
    if required != [] {
      var before, last := required[..|required| - 1], required[|required| - 1];
      var place := path + [Field(last)];
      MissingReported(before, members, path, d);
      FlaggedOnce(last !in members, Required, place, d);
      ReportedTogether(Missing(before, members, path), Flagged(last !in members, Required, place), d);
      OneStepBelow(path, Field(last), d.path);
      assert required == before + [last];
      hide Reported, Flagged;
    }
  }

  lemma OneStepBelow(path: Path, step: Step, q: Path)
    ensures q == path + [step] <==> |q| == |path| + 1 && path <= q && q[|path|] == step
  {
    if |q| == |path| + 1 && path <= q { assert q == path + [q[|path|]]; }
  }

  /** What one member is reported for. */
  ghost function MemberReports(defs: Definitions, formats: Formats, s: Schema, v: Json, k: string, rule: Rule,
                               rest: Path): nat
    requires Guarded(defs) && v.Obj? && k in v.members
  {
    if k in s.properties then Violations(defs, formats, Spot(s.properties[k], v.members[k]), rule, rest)
    else Once(s.additional == Some(false) && rule == Unknown && rest == [])
  }

  lemma {:induction false} MemberReported(defs: Definitions, formats: Formats, s: Schema, v: Json, k: string,
                                          path: Path,
                                          rule: Rule, rest: Path)
    requires Guarded(defs) && v.Obj? && k in v.members
    ensures Reported(OfMember(defs, formats, s, v, k, path), Diagnostic(rule, path + [Field(k)] + rest))
      == MemberReports(defs, formats, s, v, k, rule, rest)
    decreases v, 0, 0
  {
    hide Diagnose, Guarded, Violations;
    if k in s.properties {
      DiagnosticsAreViolations(defs, formats, s.properties[k], v.members[k], path + [Field(k)], rule, rest);
    } else {
      var place := path + [Field(k)];
      FlaggedOnce(s.additional == Some(false), Unknown, place, Diagnostic(rule, place + rest));
      PathsMatch(place, rest, []);
      assert place + [] == place;
    }
  }

  /** Of members that are looked at once each, only the one on the way is reported
      for a place below it. */
  lemma {:induction false} MembersReported(defs: Definitions, formats: Formats, s: Schema, v: Json, keys: seq<string>,
                                           n: nat, path: Path, rule: Rule, k: string, rest: Path)
    requires Guarded(defs) && v.Obj? && n <= |keys| && forall i :: 0 <= i < |keys| ==> keys[i] in v.members
    requires Distinct(keys)
    ensures Reported(OfMembers(defs, formats, s, v, keys, n, path), Diagnostic(rule, path + [Field(k)] + rest))
      == if k in keys[..n] then MemberReports(defs, formats, s, v, k, rule, rest) else 0
    decreases v, 0, n + 1
  {
    hide Diagnose, Guarded, OfMember, MemberReports;
    if n > 0 {
      var last, d := keys[n - 1], Diagnostic(rule, path + [Field(k)] + rest);
      MembersReported(defs, formats, s, v, keys, n - 1, path, rule, k, rest);
      ReportedTogether(OfMembers(defs, formats, s, v, keys, n - 1, path), OfMember(defs, formats, s, v, last, path), d);
      assert keys[..n] == keys[..n - 1] + [last];
      if last == k {
        MemberReported(defs, formats, s, v, k, path, rule, rest);
        assert k !in keys[..n - 1];
      } else {
        MemberBelow(defs, formats, s, v, last, path);
        StepsApart(path, Field(last), Field(k), rest);
        NotReported(OfMember(defs, formats, s, v, last, path), path + [Field(last)], d);
      }
    }
  }

  lemma StepsApart(path: Path, a: Step, b: Step, rest: Path)
    requires a != b
    ensures !(path + [a] <= path + [b] + rest)
  {
    assert (path + [a])[|path|] == a && (path + [b] + rest)[|path|] == b;
  }

  lemma {:induction false} ElementsReported(defs: Definitions, formats: Formats, item: Schema, v: Json, n: nat,
                                            path: Path, rule: Rule, i: nat, rest: Path)
    requires Guarded(defs) && v.Arr? && n <= |v.elements|
    ensures Reported(OfElements(defs, formats, item, v, n, path), Diagnostic(rule, path + [Index(i)] + rest))
      == if i < n then Violations(defs, formats, Spot(item, v.elements[i]), rule, rest) else 0
    decreases v, 0, n
  {
    hide Diagnose, Guarded, Violations;
    if n > 0 {
      var place, d := path + [Index(n - 1)], Diagnostic(rule, path + [Index(i)] + rest);
      var last := Diagnose(defs, formats, item, v.elements[n - 1], place);
      ElementsReported(defs, formats, item, v, n - 1, path, rule, i, rest);
      ReportedTogether(OfElements(defs, formats, item, v, n - 1, path), last, d);
      if i == n - 1 {
        DiagnosticsAreViolations(defs, formats, item, v.elements[n - 1], place, rule, rest);
      } else {
        DiagnosticsBelow(defs, formats, item, v.elements[n - 1], place);
        StepsApart(path, Index(n - 1), Index(i), rest);
        NotReported(last, place, d);
      }
    }
  }

  /** Below a value, what is violated is what is violated at the step into it. */
  lemma ViolationsInside(defs: Definitions, formats: Formats, spot: Spot, rule: Rule, place: Path)
    requires Guarded(defs) && place != [] && (NamesMember(rule) ==> |place| > 1)
    ensures Violations(defs, formats, spot, rule, place) ==
      match Enter(defs, spot, place[0])
      case None => 0
      case Some(inner) => Violations(defs, formats, inner, rule, place[1..])
  {
    hide Enter, Broken, Guarded;
    var rest := place[1..];
    assert rest != [] ==> rest[|rest| - 1] == place[|place| - 1];
    if NamesMember(rule) {
      var before := place[..|place| - 1];
      assert before[0] == place[0] && before[1..] == rest[..|rest| - 1];
    }
  }

  lemma ViolationsHere(defs: Definitions, formats: Formats, spot: Spot, rule: Rule, place: Path)
    requires Guarded(defs) && (if NamesMember(rule) then |place| <= 1 else place == [])
    ensures Violations(defs, formats, spot, rule, place) ==
      if !NamesMember(rule) then Broken(defs, formats, spot, rule, "")
      else if place == [] || !place[0].Field? then 0
      else Broken(defs, formats, spot, rule, place[0].name)
  {
    hide Broken, Guarded;
    if |place| == 1 { assert place[..0] == []; }
  }

  /** References make no difference. */
  lemma SamePlainSameViolations(defs: Definitions, formats: Formats, a: Schema, b: Schema, v: Json, rule: Rule,
                                place: Path)
    requires Guarded(defs) && Plain(defs, a) == Plain(defs, b)
    ensures Violations(defs, formats, Spot(a, v), rule, place) == Violations(defs, formats, Spot(b, v), rule, place)
  {
    if place == [] || (NamesMember(rule) && |place| == 1) {
      ViolationsHere(defs, formats, Spot(a, v), rule, place);
      ViolationsHere(defs, formats, Spot(b, v), rule, place);
      SamePlainBreaksAlike(defs, formats, a, b, v, rule, if place != [] && place[0].Field? then place[0].name else "");
      hide Violations, Broken;
    } else {
      ViolationsInside(defs, formats, Spot(a, v), rule, place);
      ViolationsInside(defs, formats, Spot(b, v), rule, place);
      SamePlainEntersAlike(defs, a, b, v, place[0]);
      hide Violations, Enter;
    }
  }

  lemma SamePlainBreaksAlike(defs: Definitions, formats: Formats, a: Schema, b: Schema, v: Json, rule: Rule,
                             name: string)
    requires Guarded(defs) && Plain(defs, a) == Plain(defs, b)
    ensures Broken(defs, formats, Spot(a, v), rule, name) == Broken(defs, formats, Spot(b, v), rule, name)
    ensures Broken(defs, formats, Spot(a, v), rule, "") == Broken(defs, formats, Spot(b, v), rule, "")
  {
    hide Plain, TypeMatches, Once, OnlyMatch, Within, FormatFits, RangeFits, Guarded;
  }

  lemma SamePlainEntersAlike(defs: Definitions, a: Schema, b: Schema, v: Json, step: Step)
    requires Guarded(defs) && Plain(defs, a) == Plain(defs, b)
    ensures Enter(defs, Spot(a, v), step) == Enter(defs, Spot(b, v), step)
  {
    hide Plain, TypeMatches, Guarded;
  }

  lemma PlainBelowReference(defs: Definitions, s: Schema)
    requires Guarded(defs) && s.ref != "" && Resolves(defs, s.ref)
    ensures Plain(defs, s) == Plain(defs, Target(defs, s.ref))
  {
    ReferenceDescends(defs, s);
  }

  /** An object reports the required names it lacks, and what its members report. */
  lemma {:induction false} ObjectReports(defs: Definitions, formats: Formats, s: Schema, v: Json, path: Path,
                                         rule: Rule,
                                         q: Path)
    requires Guarded(defs) && s.ref == "" && s.oneOf == [] && v.Obj? && q != [] && q[0].Field?
    ensures var k := q[0].name;
      Reported(InsideDiagnostics(defs, formats, s, v, path), Diagnostic(rule, path + q))
      == (if rule == Required && |q| == 1 && k !in v.members then multiset(s.required)[k] else 0)
         + (if k in v.members then MemberReports(defs, formats, s, v, k, rule, q[1..]) else 0)
    decreases v, 1, 0
  {
    hide *;
    var k, rest, keys, d := q[0].name, q[1..], SortedMembers(v), Diagnostic(rule, path + q);
    StepFirst(path, q);
    SortedMembersDistinct(v);
    ObjectParts(defs, formats, s, v, path, d);
    MissingReported(s.required, v.members, path, d);
    MembersReported(defs, formats, s, v, keys, |keys|, path, rule, k, rest);
    assert keys[..|keys|] == keys;
  }

  lemma StepFirst(path: Path, q: Path)
    requires q != []
    ensures path + [q[0]] + q[1..] == path + q && path <= path + q && (path + q)[|path|] == q[0]
  {
  }

  lemma ObjectParts(defs: Definitions, formats: Formats, s: Schema, v: Json, path: Path, d: Diagnostic)
    requires Guarded(defs) && v.Obj?
    ensures Reported(InsideDiagnostics(defs, formats, s, v, path), d)
      == Reported(Missing(s.required, v.members, path), d)
         + Reported(OfMembers(defs, formats, s, v, SortedMembers(v), |v.members|, path), d)
  {
    var missing, inner := Missing(s.required, v.members, path),
        OfMembers(defs, formats, s, v, SortedMembers(v), |v.members|, path);
    assert InsideDiagnostics(defs, formats, s, v, path) == missing + inner;
    hide *;
    ReportedTogether(missing, inner, d);
  }

  lemma ObjectViolations(defs: Definitions, formats: Formats, s: Schema, v: Json, rule: Rule, q: Path)
    requires Guarded(defs) && s.ref == "" && s.oneOf == [] && v.Obj? && TypeMatches(s.kind, v) && q != [] && q[0].Field?
    ensures var k := q[0].name;
      Violations(defs, formats, Spot(s, v), rule, q)
      == (if rule == Required && |q| == 1 && k !in v.members then multiset(s.required)[k] else 0)
         + (if k in v.members then MemberReports(defs, formats, s, v, k, rule, q[1..]) else 0)
  {
    var k := q[0].name;
    assert Plain(defs, s) == Some(s);
    hide Violations, TypeMatches, Plain, OnlyMatch, Within, FormatFits, RangeFits, Guarded;
    if NamesMember(rule) && |q| == 1 {
      assert q[1..] == [];
      ViolationsHere(defs, formats, Spot(s, v), rule, q);
      if k in v.members && k in s.properties {
        ViolationsHere(defs, formats, Spot(s.properties[k], v.members[k]), rule, []);
      }
    } else {
      ViolationsInside(defs, formats, Spot(s, v), rule, q);
      assert rule == Required ==> |q| > 1;
    }
  }

  lemma {:induction false} ObjectReported(defs: Definitions, formats: Formats, s: Schema, v: Json, path: Path,
                                          rule: Rule,
                                          q: Path)
    requires Guarded(defs) && s.ref == "" && s.oneOf == [] && v.Obj? && TypeMatches(s.kind, v)
    requires q != [] && q[0].Field?
    ensures Reported(InsideDiagnostics(defs, formats, s, v, path), Diagnostic(rule, path + q))
      == Violations(defs, formats, Spot(s, v), rule, q)
    decreases v, 1, 1
  {
    hide *;
    ObjectReports(defs, formats, s, v, path, rule, q);
    ObjectViolations(defs, formats, s, v, rule, q);
  }

  lemma SortedMembersDistinct(v: Json)
    requires v.Obj?
    ensures Distinct(SortedMembers(v))
  {
    SortedKeysFacts(v.members.Keys);
    DistinctMeansOnce(SortedKeys(v.members.Keys));
  }

  lemma ArrayParts(defs: Definitions, formats: Formats, s: Schema, v: Json, path: Path, d: Diagnostic)
    requires Guarded(defs) && v.Arr?
    ensures Reported(InsideDiagnostics(defs, formats, s, v, path), d)
      == Once(!Within(s.minItems, |v.elements|, s.maxItems) && d == Diagnostic(ItemCount, path))
         + (if s.items.Some? then Reported(OfElements(defs, formats, s.items.value, v, |v.elements|, path), d) else 0)
  {
    var n := |v.elements|;
    var counted := Flagged(!Within(s.minItems, n, s.maxItems), ItemCount, path);
    var inner := if s.items.Some? then OfElements(defs, formats, s.items.value, v, n, path) else [];
    assert InsideDiagnostics(defs, formats, s, v, path) == counted + inner;
    assert Reported([], d) == 0;
    hide *;
    FlaggedOnce(!Within(s.minItems, n, s.maxItems), ItemCount, path, d);
    ReportedTogether(counted, inner, d);
  }

  lemma {:induction false} ArrayReports(defs: Definitions, formats: Formats, s: Schema, v: Json, path: Path,
                                        rule: Rule, q: Path)
    requires Guarded(defs) && v.Arr? && q != [] && q[0].Index?
    ensures Reported(InsideDiagnostics(defs, formats, s, v, path), Diagnostic(rule, path + q))
      == if s.items.Some? && q[0].i < |v.elements|
         then Violations(defs, formats, Spot(s.items.value, v.elements[q[0].i]), rule, q[1..]) else 0
    decreases v, 0, |v.elements| + 1
  {
    assert Once(false) == 0;
    hide *;
    StepFirst(path, q);
    ArrayParts(defs, formats, s, v, path, Diagnostic(rule, path + q));
    if s.items.Some? {
      ElementsReported(defs, formats, s.items.value, v, |v.elements|, path, rule, q[0].i, q[1..]);
    }
  }

  lemma ArrayViolations(defs: Definitions, formats: Formats, s: Schema, v: Json, rule: Rule, q: Path)
    requires Guarded(defs) && s.ref == "" && s.oneOf == [] && v.Arr? && TypeMatches(s.kind, v) && q != [] && q[0].Index?
    ensures Violations(defs, formats, Spot(s, v), rule, q)
      == if s.items.Some? && q[0].i < |v.elements|
         then Violations(defs, formats, Spot(s.items.value, v.elements[q[0].i]), rule, q[1..]) else 0
  {
    assert Plain(defs, s) == Some(s);
    hide Violations, TypeMatches, Plain, OnlyMatch, Within, FormatFits, RangeFits, Guarded;
    if NamesMember(rule) && |q| == 1 {
      ViolationsHere(defs, formats, Spot(s, v), rule, q);
      if s.items.Some? && q[0].i < |v.elements| {
        ViolationsHere(defs, formats, Spot(s.items.value, v.elements[q[0].i]), rule, q[1..]);
      }
    } else {
      ViolationsInside(defs, formats, Spot(s, v), rule, q);
    }
  }

  lemma {:induction false} ArrayReported(defs: Definitions, formats: Formats, s: Schema, v: Json, path: Path,
                                         rule: Rule, q: Path)
    requires Guarded(defs) && s.ref == "" && s.oneOf == [] && v.Arr? && TypeMatches(s.kind, v)
    requires q != [] && q[0].Index?
    ensures Reported(InsideDiagnostics(defs, formats, s, v, path), Diagnostic(rule, path + q))
      == Violations(defs, formats, Spot(s, v), rule, q)
    decreases v, 1, 0
  {
    hide *;
    ArrayReports(defs, formats, s, v, path, rule, q);
    ArrayViolations(defs, formats, s, v, rule, q);
  }

  /** At an object itself, and at an index below it, nothing is reported. */
  lemma {:induction false} ObjectAside(defs: Definitions, formats: Formats, s: Schema, v: Json, path: Path,
                                       d: Diagnostic)
    requires Guarded(defs) && v.Obj? && path <= d.path && (|d.path| > |path| ==> d.path[|path|].Index?)
    ensures Reported(InsideDiagnostics(defs, formats, s, v, path), d) == 0
  {
    hide *;
    ObjectParts(defs, formats, s, v, path, d);
    MissingReported(s.required, v.members, path, d);
    MembersBelow(defs, formats, s, v, SortedMembers(v), |v.members|, path);
    NotReportedHere(OfMembers(defs, formats, s, v, SortedMembers(v), |v.members|, path), path, true, d);
  }

  /** At an array itself, and at a name below it, only its length is reported. */
  lemma {:induction false} ArrayAside(defs: Definitions, formats: Formats, s: Schema, v: Json, path: Path,
                                      d: Diagnostic)
    requires Guarded(defs) && v.Arr? && path <= d.path && (|d.path| > |path| ==> d.path[|path|].Field?)
    ensures Reported(InsideDiagnostics(defs, formats, s, v, path), d)
      == Once(!Within(s.minItems, |v.elements|, s.maxItems) && d == Diagnostic(ItemCount, path))
  {
    hide *;
    ArrayParts(defs, formats, s, v, path, d);
    if s.items.Some? {
      ElementsBelow(defs, formats, s.items.value, v, |v.elements|, path);
      NotReportedHere(OfElements(defs, formats, s.items.value, v, |v.elements|, path), path, false, d);
    }
  }

  lemma OwnFlagsBelow(defs: Definitions, formats: Formats, s: Schema, v: Json, path: Path, d: Diagnostic)
    requires Guarded(defs) && !v.Obj? && !v.Arr? && d.path != path
    ensures Reported(InsideDiagnostics(defs, formats, s, v, path), d) == 0
  {
    hide Guarded, Within, FormatFits, RangeFits;
    assert d !in InsideDiagnostics(defs, formats, s, v, path);
  }

  /** Off the steps that a value has, nothing is reported. */
  lemma {:induction false} NothingElsewhere(defs: Definitions, formats: Formats, s: Schema, v: Json, path: Path,
                                            d: Diagnostic)
    requires Guarded(defs) && path <= d.path && |d.path| > |path|
    requires !(v.Obj? && d.path[|path|].Field?) && !(v.Arr? && d.path[|path|].Index?)
    ensures Reported(InsideDiagnostics(defs, formats, s, v, path), d) == 0
  {
    hide Guarded, Within, Reported, FormatFits, RangeFits;
    if v.Obj? {
      hide InsideDiagnostics;
      ObjectAside(defs, formats, s, v, path, d);
    } else if v.Arr? {
      hide InsideDiagnostics;
      ArrayAside(defs, formats, s, v, path, d);
    } else {
      OwnFlagsBelow(defs, formats, s, v, path, d);
    }
  }

  lemma NothingBrokenElsewhere(defs: Definitions, formats: Formats, s: Schema, v: Json, rule: Rule, q: Path)
    requires Guarded(defs) && s.ref == "" && s.oneOf == [] && TypeMatches(s.kind, v)
    requires q != [] && !(v.Obj? && q[0].Field?) && !(v.Arr? && q[0].Index?)
    ensures Violations(defs, formats, Spot(s, v), rule, q) == 0
  {
    assert Plain(defs, s) == Some(s);
    hide Violations, TypeMatches, Plain, OnlyMatch, Within, FormatFits, RangeFits, Guarded;
    if NamesMember(rule) && |q| == 1 {
      ViolationsHere(defs, formats, Spot(s, v), rule, q);
    } else {
      ViolationsInside(defs, formats, Spot(s, v), rule, q);
    }
  }

  lemma {:induction false} ElsewhereReported(defs: Definitions, formats: Formats, s: Schema, v: Json, path: Path,
                                             rule: Rule, q: Path)
    requires Guarded(defs) && s.ref == "" && s.oneOf == [] && TypeMatches(s.kind, v)
    requires q != [] && !(v.Obj? && q[0].Field?) && !(v.Arr? && q[0].Index?)
    ensures Reported(InsideDiagnostics(defs, formats, s, v, path), Diagnostic(rule, path + q))
      == Violations(defs, formats, Spot(s, v), rule, q)
  {
    assert (path + q)[|path|] == q[0] && path <= path + q;
    hide *;
    NothingElsewhere(defs, formats, s, v, path, Diagnostic(rule, path + q));
    NothingBrokenElsewhere(defs, formats, s, v, rule, q);
  }

  /** At the value itself nothing of its members or elements is reported. */
  lemma {:induction false} OwnReports(defs: Definitions, formats: Formats, s: Schema, v: Json, path: Path, rule: Rule)
    requires Guarded(defs)
    ensures Reported(InsideDiagnostics(defs, formats, s, v, path), Diagnostic(rule, path)) ==
      match v
      case Obj(_) => 0
      case Arr(elements) => Once(rule == ItemCount && !Within(s.minItems, |elements|, s.maxItems))
      case Str(text) => Once(rule == Length && !Within(s.minLength, |text|, s.maxLength))
                        + Once(rule == Format && !FormatFits(formats, s.format, text))
      case Number(text) => Once(rule == Range && !RangeFits(formats, s, text))
      case _ => 0
  {
    hide Guarded, Within, FormatFits, RangeFits;
    var d := Diagnostic(rule, path);
    if v.Obj? {
      hide InsideDiagnostics;
      ObjectAside(defs, formats, s, v, path, d);
    } else if v.Arr? {
      hide InsideDiagnostics;
      ArrayAside(defs, formats, s, v, path, d);
    }
  }

  lemma OwnViolations(defs: Definitions, formats: Formats, s: Schema, v: Json, rule: Rule)
    requires Guarded(defs) && s.ref == "" && s.oneOf == [] && TypeMatches(s.kind, v)
    ensures Violations(defs, formats, Spot(s, v), rule, []) ==
      Once(rule == NotInEnum && s.enumeration != [] && v !in s.enumeration) +
      match v
      case Obj(_) => 0
      case Arr(elements) => Once(rule == ItemCount && !Within(s.minItems, |elements|, s.maxItems))
      case Str(text) => Once(rule == Length && !Within(s.minLength, |text|, s.maxLength))
                        + Once(rule == Format && !FormatFits(formats, s.format, text))
      case Number(text) => Once(rule == Range && !RangeFits(formats, s, text))
      case _ => 0
  {
    assert Plain(defs, s) == Some(s);
    hide Violations, TypeMatches, Plain, OnlyMatch, Within, FormatFits, RangeFits, Guarded;
    ViolationsHere(defs, formats, Spot(s, v), rule, []);
  }

  lemma {:induction false} PlainReported(defs: Definitions, formats: Formats, s: Schema, v: Json, path: Path,
                                         rule: Rule,
                                         q: Path)
    requires Guarded(defs) && s.ref == "" && s.oneOf == []
    ensures Reported(Diagnose(defs, formats, s, v, path), Diagnostic(rule, path + q))
      == Violations(defs, formats, Spot(s, v), rule, q)
    decreases v, 2, Level(RankOf(defs), s), s, 0
  {
    hide Guarded, InsideDiagnostics, Conforms, Violations;
    var d := Diagnostic(rule, path + q);
    PathsMatch(path, q, []);
    assert path + [] == path;
    if !TypeMatches(s.kind, v) {
      hide TypeMatches;
      WrongTypeOnly(defs, formats, s, v, rule, q);
    } else {
      hide TypeMatches;
      var enumerated := s.enumeration != [] && v !in s.enumeration;
      FlaggedOnce(enumerated, NotInEnum, path, d);
      ReportedTogether(Flagged(enumerated, NotInEnum, path), InsideDiagnostics(defs, formats, s, v, path), d);
      if q == [] { OwnReports(defs, formats, s, v, path, rule); OwnViolations(defs, formats, s, v, rule); }
      else if v.Obj? && q[0].Field? { ObjectReported(defs, formats, s, v, path, rule, q); }
      else if v.Arr? && q[0].Index? { ArrayReported(defs, formats, s, v, path, rule, q); }
      else { ElsewhereReported(defs, formats, s, v, path, rule, q); }
    }
  }

  lemma WrongTypeOnly(defs: Definitions, formats: Formats, s: Schema, v: Json, rule: Rule, q: Path)
    requires Guarded(defs) && s.ref == "" && s.oneOf == [] && !TypeMatches(s.kind, v)
    ensures Violations(defs, formats, Spot(s, v), rule, q) == Once(rule == WrongType && q == [])
  {
    hide TypeMatches, Guarded;
    if q == [] || (NamesMember(rule) && |q| == 1) {
      ViolationsHere(defs, formats, Spot(s, v), rule, q);
    } else {
      ViolationsInside(defs, formats, Spot(s, v), rule, q);
    }
  }

  lemma {:induction false} ChoiceReported(defs: Definitions, formats: Formats, s: Schema, v: Json, path: Path,
                                          rule: Rule,
                                          q: Path)
    requires Guarded(defs) && s.ref == "" && s.oneOf != []
    ensures Reported(Diagnose(defs, formats, s, v, path), Diagnostic(rule, path + q))
      == Violations(defs, formats, Spot(s, v), rule, q)
  {
    var d := Diagnostic(rule, path + q);
    var bad := !Conforms(defs, formats, s, v);
    ChoiceIff(defs, formats, s, v, path);
    assert Diagnose(defs, formats, s, v, path) == Flagged(bad, NotOneOf, path);
    hide Diagnose, Guarded, OnlyMatch, Level, Levels;
    PathsMatch(path, q, []);
    assert path + [] == path;
    FlaggedOnce(bad, NotOneOf, path, d);
    if q == [] || (NamesMember(rule) && |q| == 1) {
      ViolationsHere(defs, formats, Spot(s, v), rule, q);
    } else {
      ViolationsInside(defs, formats, Spot(s, v), rule, q);
    }
  }

  lemma DeadEndReported(defs: Definitions, formats: Formats, s: Schema, v: Json, path: Path, rule: Rule, q: Path)
    requires Guarded(defs) && s.ref != "" && !Resolves(defs, s.ref)
    ensures Reported([Diagnostic(UnresolvedReference, path)], Diagnostic(rule, path + q))
      == Violations(defs, formats, Spot(s, v), rule, q)
  {
    PathsMatch(path, q, []);
    assert path + [] == path;
    if q == [] || (NamesMember(rule) && |q| == 1) {
      ViolationsHere(defs, formats, Spot(s, v), rule, q);
    } else {
      ViolationsInside(defs, formats, Spot(s, v), rule, q);
    }
  }

  /** The list of diagnostics, told without running the validator: each rule is
      reported at each place exactly as often as the value found there breaks it,
      and nothing is reported anywhere else. */
  lemma {:induction false} DiagnosticsAreViolations(defs: Definitions, formats: Formats, s: Schema, v: Json, path: Path,
                                                    rule: Rule, q: Path)
    requires Guarded(defs)
    ensures Reported(Diagnose(defs, formats, s, v, path), Diagnostic(rule, path + q))
      == Violations(defs, formats, Spot(s, v), rule, q)
    decreases v, 2, Level(RankOf(defs), s), s, 1
  {
    if s.ref != "" {
      if Resolves(defs, s.ref) {
        ReferenceDescends(defs, s);
        DiagnosticsAreViolations(defs, formats, Target(defs, s.ref), v, path, rule, q);
        PlainBelowReference(defs, s);
        SamePlainSameViolations(defs, formats, s, Target(defs, s.ref), v, rule, q);
        hide Violations, Plain;
      } else {
        DeadEndReported(defs, formats, s, v, path, rule, q);
      }
    } else if s.oneOf != [] {
      ChoiceReported(defs, formats, s, v, path, rule, q);
    } else {
      PlainReported(defs, formats, s, v, path, rule, q);
    }
  }

  /** Missing names are reported in the order in which they are listed. */
  lemma {:induction false} MissingInOrder(a: seq<string>, b: seq<string>, members: map<string, Json>, path: Path)
    ensures Missing(a + b, members, path) == Missing(a, members, path) + Missing(b, members, path)
  {
    if b == [] {
      assert a + b == a;
    } else {
      var all, rest, last := a + b, b[..|b| - 1], b[|b| - 1];
      assert all[..|all| - 1] == a + rest && all[|all| - 1] == last;
      MissingInOrder(a, rest, members, path);
    }
  }

  /** The faults of members are reported in the order of the members' names. */
  lemma {:induction false} MembersInOrder(defs: Definitions, formats: Formats, s: Schema, v: Json, keys: seq<string>,
                                          n: nat, path: Path)
    requires Guarded(defs) && v.Obj? && n <= |keys| && forall i :: 0 <= i < |keys| ==> keys[i] in v.members
    requires SortedBy(StringLe, keys)
    ensures var list := OfMembers(defs, formats, s, v, keys, n, path);
      && BelowSteps(list, path, true)
      && (forall i :: 0 <= i < |list| ==> n > 0 && StringLe(list[i].path[|path|].name, keys[n - 1]))
      && (forall i, j :: 0 <= i < j < |list| ==> StringLe(list[i].path[|path|].name, list[j].path[|path|].name))
    decreases n
  {
    MembersBelow(defs, formats, s, v, keys, n, path);
    if n > 0 {
      var before, own := OfMembers(defs, formats, s, v, keys, n - 1, path),
          OfMember(defs, formats, s, v, keys[n - 1], path);
      var list := OfMembers(defs, formats, s, v, keys, n, path);
      assert list == before + own;
      MembersInOrder(defs, formats, s, v, keys, n - 1, path);
      MemberBelow(defs, formats, s, v, keys[n - 1], path);
      hide OfMembers, OfMember, Guarded;
      forall i | 0 <= i < |own| ensures own[i].path[|path|] == Field(keys[n - 1]) {
        assert own[i] in own;
        assert (path + [Field(keys[n - 1])])[|path|] == Field(keys[n - 1]);
      }
      forall i | 0 <= i < |before| ensures StringLe(before[i].path[|path|].name, keys[n - 1]) {
        StringLeTransitive(before[i].path[|path|].name, keys[n - 2], keys[n - 1]);
      }
      StringLeTotal(keys[n - 1], keys[n - 1]);
    }
  }

  /** An example: a member of the wrong type is reported at its name. */
  lemma MemberOfWrongType(defs: Definitions, formats: Formats, s: Schema, name: string, text: string, path: Path)
    requires Guarded(defs) && s.ref == "" && s.oneOf == [] && s.kind == "object" && name in s.properties
    requires s.properties[name].ref == "" && s.properties[name].oneOf == [] && s.properties[name].kind == "string"
    ensures Reported(Diagnose(defs, formats, s, Obj(map[name := Number(text)]), path),
                     Diagnostic(WrongType, path + [Field(name)])) == 1
  {
    var v := Obj(map[name := Number(text)]);
    DiagnosticsAreViolations(defs, formats, s, v, path, WrongType, [Field(name)]);
    ViolationsInside(defs, formats, Spot(s, v), WrongType, [Field(name)]);
    WrongTypeOnly(defs, formats, s.properties[name], Number(text), WrongType, []);
    assert [Field(name)][1..] == [];
    assert Plain(defs, s) == Some(s) && TypeMatches(s.kind, v);
    assert Enter(defs, Spot(s, v), Field(name)) == Some(Spot(s.properties[name], Number(text)));
    hide Diagnose, Violations;
  }

  // ---------------------------------------------------------------------
  // When every walk ends
  // ---------------------------------------------------------------------

  lemma {:induction false} RanksFall(defs: Definitions, rank: Rank, p: seq<string>)
    requires Ranks(defs, rank) && RefPath(defs, p) && |p| >= 2
    ensures rank[p[|p| - 1]] < rank[p[0]]
  {
    assert p[1] in Refs(defs[p[0]]);
    if |p| > 2 {
      var rest := p[1..];
      forall i | 0 <= i < |rest| - 1
        ensures rest[i + 1] in Refs(defs[rest[i]])
      {
        assert p[i + 2] in Refs(defs[p[i + 1]]);
      }
      RanksFall(defs, rank, rest);
    }
  }

  /** A walk of n steps inside a set in which every definition refers to another
      member of the set. */
  lemma {:induction false} Wander(defs: Definitions, inside: set<string>, n: nat) returns (p: seq<string>)
    requires inside != {} && inside <= defs.Keys
    requires forall m :: m in inside ==> Refs(defs[m]) * inside != {}
    ensures |p| == n + 1 && RefPath(defs, p) && forall i :: 0 <= i < |p| ==> p[i] in inside
  {
    hide Refs, RefPath;
    if n == 0 {
      var m :| m in inside;
      p := [m];
      PathStarts(defs, m);
    } else {
      var q := Wander(defs, inside, n - 1);
      var last := q[n - 1];
      assert last in inside;
      var m :| m in Refs(defs[last]) * inside;
      p := q + [m];
      PathGrows(defs, q, m);
    }
  }

  lemma PathStarts(defs: Definitions, m: string)
    requires m in defs
    ensures RefPath(defs, [m])
  {
  }

  lemma PathGrows(defs: Definitions, p: seq<string>, m: string)
    requires p != [] && RefPath(defs, p) && m in defs && m in Refs(defs[p[|p| - 1]])
    ensures RefPath(defs, p + [m])
  {
    hide Refs;
    var q := p + [m];
    forall i | 0 <= i < |q| - 1 ensures q[i + 1] in Refs(defs[q[i]]) {
      if i < |p| - 1 { assert p[i + 1] in Refs(defs[p[i]]); }
    }
  }

  lemma CutLoop(defs: Definitions, p: seq<string>, i: nat, j: nat)
    requires RefPath(defs, p) && i < j < |p| && p[i] == p[j]
    ensures !NoRefCycle(defs)
  {
    var loop := p[i..j + 1];
    forall k | 0 <= k < |loop| - 1 ensures loop[k + 1] in Refs(defs[loop[k]]) {
      assert p[i + k + 1] in Refs(defs[p[i + k]]);
    }
    assert RefCycle(defs, loop);
  }

  ghost predicate RefersOutside(defs: Definitions, inside: set<string>, m: string)
    requires inside <= defs.Keys
  {
    m in inside && Refs(defs[m]) * inside == {}
  }

  /** Without a cycle, some definition refers to no member of a given set. */
  lemma SomeSink(defs: Definitions, inside: set<string>)
    requires NoRefCycle(defs) && inside != {} && inside <= defs.Keys
    ensures exists m :: RefersOutside(defs, inside, m)
  {
    if forall m :: !RefersOutside(defs, inside, m) {
      forall m | m in inside ensures Refs(defs[m]) * inside != {} { assert !RefersOutside(defs, inside, m); }
      var p := Wander(defs, inside, |inside|);
      if Distinct(p) { PG.DistinctFits(p, inside); }
      var i, j :| 0 <= i < j < |p| && p[i] == p[j];
      CutLoop(defs, p, i, j);
      assert false;
    }
  }

  /** The definitions ranked so far refer only to definitions ranked lower. */
  ghost predicate RanksSome(defs: Definitions, rank: Rank) {
    && rank.Keys <= defs.Keys
    && (forall n, m :: n in rank && m in defs && m in Refs(defs[n]) ==> m in rank && rank[m] < rank[n])
    && (forall n :: n in rank ==> rank[n] < |rank|)
  }

  lemma BelongsInside(defs: Definitions, inside: set<string>, n: string)
    requires inside <= defs.Keys && RefersOutside(defs, inside, n)
    ensures n in inside
  {
  }

  lemma RefersToRanked(defs: Definitions, inside: set<string>, n: string, m: string)
    requires inside <= defs.Keys && RefersOutside(defs, inside, n) && m in Refs(defs[n])
    ensures m !in inside
  {
    assert m in inside <==> m in Refs(defs[n]) * inside;
  }

  lemma OneMoreKey<K, V>(m: map<K, V>, k: K, v: V)
    requires k !in m
    ensures |m[k := v]| == |m| + 1
  {
    assert m[k := v].Keys == m.Keys + {k};
    assert |m[k := v]| == |m[k := v].Keys| && |m| == |m.Keys|;
  }

  lemma RankOneMore(defs: Definitions, rank: Rank, n: string)
    requires RanksSome(defs, rank) && n in defs && n !in rank
    requires RefersOutside(defs, defs.Keys - rank.Keys, n)
    ensures RanksSome(defs, rank[n := |rank|])
  {
    hide Refs, RefersOutside;
    var next := rank[n := |rank|];
    assert next.Keys == rank.Keys + {n};
    assert |next| == |rank| + 1 by { OneMoreKey(rank, n, |rank|); }
    forall k, m | k in next && m in defs && m in Refs(defs[k]) ensures m in next && next[m] < next[k] {
      if k == n { RefersToRanked(defs, defs.Keys - rank.Keys, n, m); }
    }
  }

  lemma AllRanked(defs: Definitions, rank: Rank)
    requires RanksSome(defs, rank) && defs.Keys - rank.Keys == {}
    ensures Guarded(defs)
  {
    hide Refs;
    assert defs.Keys == defs.Keys - rank.Keys + rank.Keys;
    forall n, m | n in defs && m in defs && m in Refs(defs[n]) ensures rank[m] < rank[n] { assert n in rank; }
    assert Ranks(defs, rank);
  }

  lemma {:induction false} RankAll(defs: Definitions, rank: Rank)
    requires NoRefCycle(defs) && RanksSome(defs, rank)
    ensures Guarded(defs)
    decreases defs.Keys - rank.Keys
  {
    hide Refs, NoRefCycle, RefersOutside;
    var left := defs.Keys - rank.Keys;
    if left == {} {
      AllRanked(defs, rank);
    } else {
      SomeSink(defs, left);
      var n :| RefersOutside(defs, left, n);
      assert n in left by { BelongsInside(defs, left, n); }
      RankOneMore(defs, rank, n);
      assert defs.Keys - rank[n := |rank|].Keys == left - {n};
      RankAll(defs, rank[n := |rank|]);
    }
  }

  /** The condition that validation is proved under is exactly that no chain of
      references and choices is a cycle. */
  lemma GuardedIffNoCycle(defs: Definitions)
    ensures Guarded(defs) <==> NoRefCycle(defs)
  {
    if Guarded(defs) {
      forall p ensures !RefCycle(defs, p) {
        if RefPath(defs, p) && |p| >= 2 { RanksFall(defs, RankOf(defs), p); }
      }
    }
    if NoRefCycle(defs) { RankAll(defs, map[]); }
  }

  /** The calls of the validator on a schema and a value nest at most `depth`
      deep, whatever the definitions are. */
  ghost predicate EndsWithin(defs: Definitions, s: Schema, v: Json, depth: nat)
    decreases depth
  {
    depth > 0 &&
    if s.ref != "" then Resolves(defs, s.ref) ==> EndsWithin(defs, Target(defs, s.ref), v, depth - 1)
    else if s.oneOf != [] then forall i :: 0 <= i < |s.oneOf| ==> EndsWithin(defs, s.oneOf[i], v, depth - 1)
    else if !TypeMatches(s.kind, v) then true
    else
      match v
      case Obj(members) =>
        forall k :: k in members && k in s.properties ==> EndsWithin(defs, s.properties[k], members[k], depth - 1)
      case Arr(elements) =>
        s.items.Some? ==> forall i :: 0 <= i < |elements| ==> EndsWithin(defs, s.items.value, elements[i], depth - 1)
      case _ => true
  }

  ghost predicate Ends(defs: Definitions, s: Schema, v: Json) {
    exists depth :: EndsWithin(defs, s, v, depth)
  }

  lemma {:induction false} Deeper(defs: Definitions, s: Schema, v: Json, depth: nat, more: nat)
    requires depth <= more && EndsWithin(defs, s, v, depth)
    ensures EndsWithin(defs, s, v, more)
    decreases depth
  {
    hide TypeMatches;
    if s.ref != "" {
      if Resolves(defs, s.ref) { Deeper(defs, Target(defs, s.ref), v, depth - 1, more - 1); }
    } else if s.oneOf != [] {
      forall i | 0 <= i < |s.oneOf| ensures EndsWithin(defs, s.oneOf[i], v, more - 1) {
        Deeper(defs, s.oneOf[i], v, depth - 1, more - 1);
      }
    } else if TypeMatches(s.kind, v) {
      match v
      case Obj(members) =>
        forall k | k in members && k in s.properties
          ensures EndsWithin(defs, s.properties[k], members[k], more - 1)
        {
          Deeper(defs, s.properties[k], members[k], depth - 1, more - 1);
        }
      case Arr(elements) =>
        if s.items.Some? {
          forall i | 0 <= i < |elements| ensures EndsWithin(defs, s.items.value, elements[i], more - 1) {
            Deeper(defs, s.items.value, elements[i], depth - 1, more - 1);
          }
        }
      case _ =>
    }
  }

  lemma {:induction false} GuardedEnds(defs: Definitions, s: Schema, v: Json) returns (depth: nat)
    requires Guarded(defs)
    ensures EndsWithin(defs, s, v, depth)
    decreases v, 2, Level(RankOf(defs), s), s, 1
  {
    hide TypeMatches, Level, Levels, Guarded;
    var inner := 0;
    if s.ref != "" {
      if Resolves(defs, s.ref) {
        ReferenceDescends(defs, s);
        inner := GuardedEnds(defs, Target(defs, s.ref), v);
      }
    } else if s.oneOf != [] {
      inner := ChoicesEnd(defs, s, |s.oneOf|, v);
    } else {
      match v
      case Obj(members) => inner := MembersEnd(defs, s, v, members.Keys);
      case Arr(elements) => if s.items.Some? { inner := ElementsEnd(defs, s.items.value, v, |elements|); }
      case _ =>
    }
    depth := inner + 1;
  }

  lemma {:induction false} ChoicesEnd(defs: Definitions, s: Schema, n: nat, v: Json) returns (depth: nat)
    requires Guarded(defs) && s.ref == "" && n <= |s.oneOf|
    ensures forall i :: 0 <= i < n ==> EndsWithin(defs, s.oneOf[i], v, depth)
    decreases v, 2, Level(RankOf(defs), s), s, 0, n
  {
    hide EndsWithin, Guarded;
    depth := 0;
    if n > 0 {
      ChoiceDescends(RankOf(defs), s.oneOf, n - 1);
      var last := GuardedEnds(defs, s.oneOf[n - 1], v);
      var before := ChoicesEnd(defs, s, n - 1, v);
      depth := last + before;
      forall i | 0 <= i < n ensures EndsWithin(defs, s.oneOf[i], v, depth) {
        Deeper(defs, s.oneOf[i], v, if i < n - 1 then before else last, depth);
      }
    }
  }

  lemma {:induction false} MembersEnd(defs: Definitions, s: Schema, v: Json, keys: set<string>) returns (depth: nat)
    requires Guarded(defs) && v.Obj? && keys <= v.members.Keys
    ensures forall k :: k in keys && k in s.properties ==> EndsWithin(defs, s.properties[k], v.members[k], depth)
    decreases v, 1, keys
  {
    hide EndsWithin, Guarded;
    depth := 0;
    if k :| k in keys {
      var before := MembersEnd(defs, s, v, keys - {k});
      var last := 0;
      if k in s.properties { last := GuardedEnds(defs, s.properties[k], v.members[k]); }
      depth := last + before;
      forall m | m in keys && m in s.properties
        ensures EndsWithin(defs, s.properties[m], v.members[m], depth)
      {
        Deeper(defs, s.properties[m], v.members[m], if m == k then last else before, depth);
      }
    }
  }

  lemma {:induction false} ElementsEnd(defs: Definitions, item: Schema, v: Json, n: nat) returns (depth: nat)
    requires Guarded(defs) && v.Arr? && n <= |v.elements|
    ensures forall i :: 0 <= i < n ==> EndsWithin(defs, item, v.elements[i], depth)
    decreases v, 1, n
  {
    hide EndsWithin, Guarded;
    depth := 0;
    if n > 0 {
      var last := GuardedEnds(defs, item, v.elements[n - 1]);
      var before := ElementsEnd(defs, item, v, n - 1);
      depth := last + before;
      forall i | 0 <= i < n ensures EndsWithin(defs, item, v.elements[i], depth) {
        Deeper(defs, item, v.elements[i], if i < n - 1 then before else last, depth);
      }
    }
  }

  /** A schema ends later than the definitions it refers to: the validator looks
      at each of them before it looks into the value. */
  lemma {:induction false} RefersLater(defs: Definitions, s: Schema, m: string, v: Json, depth: nat)
    returns (less: nat)
    requires m in defs && m in Refs(s) && EndsWithin(defs, s, v, depth)
    ensures less < depth && EndsWithin(defs, defs[m], v, less)
    decreases depth
  {
    hide TypeMatches;
    if s.ref != "" {
      less := depth - 1;
    } else {
      var i := AmongRefs(s.oneOf, m);
      less := RefersLater(defs, s.oneOf[i], m, v, depth - 1);
    }
  }

  lemma {:induction false} AmongRefs(ss: seq<Schema>, m: string) returns (i: nat)
    requires m in AllRefs(ss)
    ensures i < |ss| && m in Refs(ss[i])
  {
    if m in Refs(ss[0]) {
      i := 0;
    } else {
      var j := AmongRefs(ss[1..], m);
      i := j + 1;
    }
  }

  /** Validation never ends for a definition on a cycle, whatever the value. */
  lemma {:induction false} CycleNeverEnds(defs: Definitions, p: seq<string>, k: nat, v: Json, depth: nat)
    requires RefCycle(defs, p) && k < |p|
    ensures !EndsWithin(defs, defs[p[k]], v, depth)
    decreases depth
  {
    hide Refs, EndsWithin;
    var at := if k == |p| - 1 then 0 else k;
    assert p[at] == p[k] && p[at + 1] in Refs(defs[p[at]]);
    if EndsWithin(defs, defs[p[k]], v, depth) {
      var less := RefersLater(defs, defs[p[at]], p[at + 1], v, depth);
      CycleNeverEnds(defs, p, at + 1, v, less);
      assert false;
    }
  }

  /** The validator ends on every schema and every value if and only if no chain
      of references and choices is a cycle. */
  lemma EndsIffNoCycle(defs: Definitions)
    ensures (forall s, v :: Ends(defs, s, v)) <==> NoRefCycle(defs)
  {
    hide EndsWithin, RefPath, Guarded;
    if NoRefCycle(defs) {
      GuardedIffNoCycle(defs);
      forall s, v ensures Ends(defs, s, v) { var depth := GuardedEnds(defs, s, v); }
    } else {
      var p :| RefCycle(defs, p);
      assert p[0] in defs by { PathStays(defs, p); }
      forall depth ensures !EndsWithin(defs, defs[p[0]], Null, depth) { CycleNeverEnds(defs, p, 0, Null, depth); }
      assert !Ends(defs, defs[p[0]], Null);
    }
  }

  lemma PathStays(defs: Definitions, p: seq<string>)
    requires RefPath(defs, p) && p != []
    ensures p[0] in defs
  {
  }

  // ---------------------------------------------------------------------
  // The validator
  // ---------------------------------------------------------------------

  /** The diagnostics list the validator shares between its calls. */
  class Sink {
    var diagnostics: seq<Diagnostic>

    constructor ()
      ensures diagnostics == []
    {
      diagnostics := [];
    }

    method Flag(bad: bool, rule: Rule, path: Path)
      modifies this
      ensures diagnostics == old(diagnostics) + Flagged(bad, rule, path)
    {
      if bad { diagnostics := diagnostics + [Diagnostic(rule, path)]; }
    }
  }

  /** Earlier diagnostics stay a prefix of the list; what is appended is empty
      exactly when the value conforms (NoDiagnosticIffConforms). */
  method Validate(defs: Definitions, formats: Formats, s: Schema, v: Json, path: Path, sink: Sink)
    requires Guarded(defs)
    modifies sink
    ensures sink.diagnostics == old(sink.diagnostics) + Diagnose(defs, formats, s, v, path)
    decreases v, 2, Level(RankOf(defs), s), s, 2
  {
    if s.ref != "" {
      if !Resolves(defs, s.ref) {
        sink.Flag(true, UnresolvedReference, path);
      } else {
        ReferenceDescends(defs, s);
        Validate(defs, formats, Target(defs, s.ref), v, path, sink);
      }
    } else if s.oneOf != [] {
      var matches := CountMatches(defs, formats, s, v, path);
      sink.Flag(matches != 1, NotOneOf, path);
    } else if !TypeMatches(s.kind, v) {
      sink.Flag(true, WrongType, path);
    } else {
      sink.Flag(s.enumeration != [] && v !in s.enumeration, NotInEnum, path);
      ghost var enumerated := Flagged(s.enumeration != [] && v !in s.enumeration, NotInEnum, path);
      ValidateInside(defs, formats, s, v, path, sink);
      Associate(old(sink.diagnostics), enumerated, InsideDiagnostics(defs, formats, s, v, path));
    }
  }

  lemma Associate<T>(a: seq<T>, b: seq<T>, c: seq<T>)
    ensures (a + b) + c == a + (b + c)
  {
  }

  method CountMatches(defs: Definitions, formats: Formats, s: Schema, v: Json, path: Path) returns (matches: nat)
    requires Guarded(defs) && s.ref == ""
    ensures matches == Clean(defs, formats, s, |s.oneOf|, v, path)
    decreases v, 2, Level(RankOf(defs), s), s, 1
  {
    hide Diagnose, Levels;
    matches := 0;
    for i := 0 to |s.oneOf|
      invariant matches == Clean(defs, formats, s, i, v, path)
    {
      var candidate := new Sink();
      ChoiceDescends(RankOf(defs), s.oneOf, i);
      Validate(defs, formats, s.oneOf[i], v, path, candidate);
      if candidate.diagnostics == [] { matches := matches + 1; }
    }
  }

  method ValidateInside(defs: Definitions, formats: Formats, s: Schema, v: Json, path: Path, sink: Sink)
    requires Guarded(defs)
    modifies sink
    ensures sink.diagnostics == old(sink.diagnostics) + InsideDiagnostics(defs, formats, s, v, path)
    decreases v, 1
  {
    ghost var before := sink.diagnostics;
    match v
    case Obj(members) =>
      FindMissing(s.required, members, path, sink);
      ValidateMembers(defs, formats, s, v, path, sink);
      Associate(before, Missing(s.required, members, path),
                OfMembers(defs, formats, s, v, SortedMembers(v), |v.members|, path));
    case Arr(elements) =>
      ValidateArray(defs, formats, s, v, path, sink);
    case Str(text) =>
      sink.Flag(!Within(s.minLength, |text|, s.maxLength), Length, path);
      sink.Flag(!FormatFits(formats, s.format, text), Format, path);
    case Number(text) => sink.Flag(!RangeFits(formats, s, text), Range, path);
    case _ =>
  }

  method ValidateArray(defs: Definitions, formats: Formats, s: Schema, v: Json, path: Path, sink: Sink)
    requires Guarded(defs) && v.Arr?
    modifies sink
    ensures sink.diagnostics == old(sink.diagnostics) + InsideDiagnostics(defs, formats, s, v, path)
    decreases v, 0, 3
  {
    var n := |v.elements|;
    sink.Flag(!Within(s.minItems, n, s.maxItems), ItemCount, path);
    if s.items.Some? {
      ValidateElements(defs, formats, s.items.value, v, path, sink);
      Associate(old(sink.diagnostics), Flagged(!Within(s.minItems, n, s.maxItems), ItemCount, path),
                OfElements(defs, formats, s.items.value, v, n, path));
    }
  }

  method FindMissing(required: seq<string>, members: map<string, Json>, path: Path, sink: Sink)
    modifies sink
    ensures sink.diagnostics == old(sink.diagnostics) + Missing(required, members, path)
  {
    for i := 0 to |required|
      invariant sink.diagnostics == old(sink.diagnostics) + Missing(required[..i], members, path)
    {
      assert required[..i + 1][..i] == required[..i];
      sink.Flag(required[i] !in members, Required, path + [Field(required[i])]);
    }
    assert required[..|required|] == required;
  }

  method ValidateElements(defs: Definitions, formats: Formats, item: Schema, v: Json, path: Path, sink: Sink)
    requires Guarded(defs) && v.Arr?
    modifies sink
    ensures sink.diagnostics == old(sink.diagnostics) + OfElements(defs, formats, item, v, |v.elements|, path)
    decreases v, 0, 2
  {
    for i := 0 to |v.elements|
      invariant sink.diagnostics == old(sink.diagnostics) + OfElements(defs, formats, item, v, i, path)
    {
      hide *;
      ghost var so := OfElements(defs, formats, item, v, i, path);
      Validate(defs, formats, item, v.elements[i], path + [Index(i)], sink);
      Associate(old(sink.diagnostics), so, Diagnose(defs, formats, item, v.elements[i], path + [Index(i)]));
      OneMoreElement(defs, formats, item, v, i, path);
    }
  }

  lemma OneMoreElement(defs: Definitions, formats: Formats, item: Schema, v: Json, n: nat, path: Path)
    requires Guarded(defs) && v.Arr? && n < |v.elements|
    ensures OfElements(defs, formats, item, v, n + 1, path)
      == OfElements(defs, formats, item, v, n, path) + Diagnose(defs, formats, item, v.elements[n], path + [Index(n)])
  {
  }

  method ValidateMembers(defs: Definitions, formats: Formats, s: Schema, v: Json, path: Path, sink: Sink)
    requires Guarded(defs) && v.Obj?
    modifies sink
    ensures sink.diagnostics
      == old(sink.diagnostics) + OfMembers(defs, formats, s, v, SortedMembers(v), |v.members|, path)
    decreases v, 0, 2
  {
    var keys := KeysOf(v.members.Keys);
    assert keys == SortedMembers(v);
    for i := 0 to |keys|
      invariant sink.diagnostics == old(sink.diagnostics) + OfMembers(defs, formats, s, v, keys, i, path)
    {
      hide *;
      ghost var so := OfMembers(defs, formats, s, v, keys, i, path);
      ValidateMember(defs, formats, s, v, keys[i], path, sink);
      Associate(old(sink.diagnostics), so, OfMember(defs, formats, s, v, keys[i], path));
      OneMoreMember(defs, formats, s, v, keys, i, path);
    }
  }

  lemma OneMoreMember(defs: Definitions, formats: Formats, s: Schema, v: Json, keys: seq<string>, n: nat, path: Path)
    requires Guarded(defs) && v.Obj? && n < |keys| && forall i :: 0 <= i < |keys| ==> keys[i] in v.members
    ensures OfMembers(defs, formats, s, v, keys, n + 1, path)
      == OfMembers(defs, formats, s, v, keys, n, path) + OfMember(defs, formats, s, v, keys[n], path)
  {
  }

  method ValidateMember(defs: Definitions, formats: Formats, s: Schema, v: Json, key: string, path: Path, sink: Sink)
    requires Guarded(defs) && v.Obj? && key in v.members
    modifies sink
    ensures sink.diagnostics == old(sink.diagnostics) + OfMember(defs, formats, s, v, key, path)
    decreases v, 0, 1
  {
    if key in s.properties {
      Validate(defs, formats, s.properties[key], v.members[key], path + [Field(key)], sink);
    } else {
      sink.Flag(s.additional == Some(false), Unknown, path + [Field(key)]);
    }
  }

  /** The keys of a map, ranged over in any order and then sorted. */
  method KeysOf(all: set<string>) returns (keys: seq<string>)
    ensures keys == SortedKeys(all)
  {
    var left := all;
    keys := [];
    while left != {}
      invariant left <= all && multiset(keys) == multiset(all - left)
      decreases left
    {
      var key :| key in left;
      assert all - (left - {key}) == (all - left) + {key};
      keys := keys + [key];
      left := left - {key};
    }
    assert all - left == all;
    SortedKeysUnique(all, keys);
    keys := Sort(StringLe, keys);
  }
}
