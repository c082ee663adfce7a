/** Compiling Identity policy expressions and data scopes into the predicates
    and the subject of an SDK access bundle. Both languages are given a meaning
    here, and compilation is proved to keep it. */
module PolicyCompilation {
  import opened Options

  // ---------------------------------------------------------------------
  // Principals, records and values
  // ---------------------------------------------------------------------

  datatype Segment = Segment(direction: string, reference: string, target: string)
  datatype Value = Text(text: string) | Texts(texts: seq<string>) | Flag

  datatype Principal = Principal(
    workspace: string, user: string, org: string, orgScope: seq<string>,
    supportOrg: string, supportScope: seq<string>, reporting: seq<string>)

  /** What the request, rather than the identity, contributes. */
  datatype Context = Context(profile: Option<Value>, claims: map<string, Value>)

  /** A record as a predicate sees it: the value of each fact, reached directly
      or over a relation path, where there is one. */
  datatype Fact = Fact(path: seq<Segment>, name: string)
  type Record = map<Fact, Value>

  datatype Operator = Equal | In

  /** A missing fact or a value that does not resolve satisfies nothing. */
  predicate Compare(op: Operator, have: Option<Value>, want: Option<Value>) {
    have.Some? && want.Some? &&
    match op
    case Equal => have == want
    case In => if want.value.Texts? then have.value.Text? && have.value.text in want.value.texts else have == want
  }

  function Lower(s: string): string {
    seq(|s|, i requires 0 <= i < |s| => if 'A' <= s[i] <= 'Z' then s[i] - 'A' + 'a' else s[i])
  }

  // ---------------------------------------------------------------------
  // The source language
  // ---------------------------------------------------------------------

  datatype Expression = Expression(
    operator: string, path: seq<Segment>, field: string, source: string, claim: string,
    values: seq<string>, children: seq<Expression>)

  function ClaimValue(key: string, p: Principal, c: Context): Option<Value> {
    match Lower(key)
    case "user_id" => Some(Text(p.user))
    case "subject_id" => Some(Text(p.user))
    case "id" => Some(Text(p.user))
    case "org_id" => Some(Text(p.org))
    case "org_scope_ids" => Some(Texts(p.orgScope))
    case "reporting_scope_user_ids" => Some(Texts(p.reporting))
    case "support_org_scope_ids" => Some(Texts(p.supportScope))
    case "business_profile_id" => c.profile
    case _ => Get(c.claims, key)
  }

  predicate FromClaim(e: Expression) {
    Lower(e.source) == "actor_claim"
  }

  /** The value a leaf compares its field with. */
  function Wanted(e: Expression, p: Principal, c: Context): Option<Value> {
    if FromClaim(e) then ClaimValue(e.claim, p, c)
    else if Lower(e.operator) != "in" && |e.values| == 1 then Some(Text(e.values[0]))
    else Some(Texts(e.values))
  }

  /** Which records an expression admits for a principal. */
  ghost predicate Holds(e: Expression, p: Principal, c: Context, r: Record) {
    match Lower(e.operator)
    case "and" => forall i :: 0 <= i < |e.children| ==> Holds(e.children[i], p, c, r)
    case "or" => exists i :: 0 <= i < |e.children| && Holds(e.children[i], p, c, r)
    case "not" => |e.children| == 1 && !Holds(e.children[0], p, c, r)
    case "in" => Compare(In, Get(r, Fact(e.path, e.field)), Wanted(e, p, c))
    case _ => Compare(Equal, Get(r, Fact(e.path, e.field)), Wanted(e, p, c))
  }

  // ---------------------------------------------------------------------
  // The target language
  // ---------------------------------------------------------------------

  datatype Predicate =
    | Nothing                                 // the zero predicate: not executable
    | All(all: seq<Predicate>)
    | Any(any: seq<Predicate>)
    | Not(negated: Predicate)
    | Leaf(fact: Fact, operator: Operator, value: Value)

  datatype Subject = Subject(
    workspace: string, id: string, org: string, orgScope: seq<string>,
    supportOrg: string, supportScope: seq<string>, reporting: seq<string>)

  const CLAIMS := "$context.claims."

  /** Texts that stand for something the evaluator supplies. */
  predicate Placeholder(s: string) {
    "$subject." <= s || "$context." <= s
  }

  function Resolve(v: Value, s: Subject, c: Context): Option<Value> {
    if !v.Text? || !Placeholder(v.text) then Some(v)
    else match v.text
      case "$subject.id" => Some(Text(s.id))
      case "$subject.org_id" => Some(Text(s.org))
      case "$subject.org_scope_ids" => Some(Texts(s.orgScope))
      case "$subject.support_org_scope_ids" => Some(Texts(s.supportScope))
      case "$subject.reporting_scope_user_ids" => Some(Texts(s.reporting))
      case "$context.business_profile_id" => c.profile
      case text => if CLAIMS <= text then Get(c.claims, text[|CLAIMS|..]) else None
  }

  ghost predicate Eval(q: Predicate, s: Subject, c: Context, r: Record) {
    match q
    case Nothing => false
    case All(all) => forall i :: 0 <= i < |all| ==> Eval(all[i], s, c, r)
    case Any(any) => exists i :: 0 <= i < |any| && Eval(any[i], s, c, r)
    case Not(negated) => !Eval(negated, s, c, r)
    case Leaf(fact, op, value) => Compare(op, Get(r, fact), Resolve(value, s, c))
  }

  // ---------------------------------------------------------------------
  // Compilation
  // ---------------------------------------------------------------------

  function ActorClaim(key: string, p: Principal): Value {
    match Lower(key)
    case "user_id" => Text("$subject.id")
    case "subject_id" => Text("$subject.id")
    case "id" => Text("$subject.id")
    case "org_id" => Text("$subject.org_id")
    case "org_scope_ids" => Text("$subject.org_scope_ids")
    case "reporting_scope_user_ids" => Text("$subject.reporting_scope_user_ids")
    case "support_org_scope_ids" => Texts(p.supportScope)
    case "business_profile_id" => Text("$context.business_profile_id")
    case _ => Text(CLAIMS + key)
  }

  const UNSUPPORTED_FACT := Fact([], "__identity_policy_unsupported__")
  const UNSUPPORTED := Leaf(UNSUPPORTED_FACT, Equal, Flag)

  function CompileLeaf(e: Expression, p: Principal): Predicate {
    if e.field == "" then UNSUPPORTED
    else
      var op := if Lower(e.operator) == "in" then In else Equal;
      var literal := if op == Equal && |e.values| == 1 then Text(e.values[0]) else Texts(e.values);
      Leaf(Fact(e.path, e.field), op, if FromClaim(e) then ActorClaim(e.claim, p) else literal)
  }

  function Compile(e: Expression, p: Principal): Predicate {
    match Lower(e.operator)
    case "and" => All(seq(|e.children|, i requires 0 <= i < |e.children| => Compile(e.children[i], p)))
    case "or" => Any(seq(|e.children|, i requires 0 <= i < |e.children| => Compile(e.children[i], p)))
    case "not" => if |e.children| == 1 then Not(Compile(e.children[0], p)) else CompileLeaf(e, p)
    case _ => CompileLeaf(e, p)
  }

  function SubjectOf(p: Principal): Subject {
    Subject(p.workspace, p.user, p.org, p.orgScope, p.supportOrg, p.supportScope, p.reporting)
  }

  const OWN_CLAIMS := {"user_id", "subject_id", "id", "org_id", "org_scope_ids", "reporting_scope_user_ids",
                       "support_org_scope_ids", "business_profile_id"}

  /** The claims that the server itself answers, in any letter case, and those it
      leaves to the request. */
  lemma ClaimsMean(key: string, p: Principal, c: Context)
    ensures var value := Resolve(ActorClaim(key, p), SubjectOf(p), c);
      && (Lower(key) == "user_id" || Lower(key) == "subject_id" || Lower(key) == "id" ==> value == Some(Text(p.user)))
      && (Lower(key) == "org_id" ==> value == Some(Text(p.org)))
      && (Lower(key) == "org_scope_ids" ==> value == Some(Texts(p.orgScope)))
      && (Lower(key) == "reporting_scope_user_ids" ==> value == Some(Texts(p.reporting)))
      && (Lower(key) == "support_org_scope_ids" ==> value == Some(Texts(p.supportScope)))
      && (Lower(key) == "business_profile_id" ==> value == c.profile)
      && (Lower(key) !in OWN_CLAIMS ==> value == Get(c.claims, key))
  {
    ClaimsResolve(key, p, c);
    hide Lower, Resolve, ActorClaim, Get;
  }

  predicate Comparison(e: Expression) {
    Lower(e.operator) != "and" && Lower(e.operator) != "or" && Lower(e.operator) != "not"
  }

  /** What is asked of an expression itself, whatever its children are: the rules
      that metadata validation has for it but applies to no role, and no literal
      that reads as a placeholder. Any operator but these four compares for
      equality. */
  predicate Shaped(e: Expression) {
    match Lower(e.operator)
    case "and" => e.children != []
    case "or" => e.children != []
    case "not" => |e.children| == 1
    case "in" => e.field != ""
    case _ => e.field != "" && (!FromClaim(e) && |e.values| == 1 ==> !Placeholder(e.values[0]))
  }

  ghost predicate WellFormed(e: Expression) {
    Shaped(e) && (Comparison(e) || forall i :: 0 <= i < |e.children| ==> WellFormed(e.children[i]))
  }

  /** A claim without a name of its own is looked up among the caller's claims. */
  lemma OtherClaimsResolve(key: string, s: Subject, c: Context)
    ensures Resolve(Text(CLAIMS + key), s, c) == Get(c.claims, key)
  {
    var text := CLAIMS + key;
    assert "$context." <= text && CLAIMS <= text;
    assert text[|CLAIMS|..] == key;
    assert text[1] == 'c' && text[9] == 'c';
    assert "$context.business_profile_id"[9] == 'b';
    assert text != "$context.business_profile_id";
    assert text != "$subject.id" && text != "$subject.org_id" && text != "$subject.org_scope_ids"
        && text != "$subject.support_org_scope_ids" && text != "$subject.reporting_scope_user_ids";
  }

  /** Each named placeholder stands for its fact. */
  lemma NamedClaimsResolve(s: Subject, c: Context)
    ensures Resolve(Text("$subject.id"), s, c) == Some(Text(s.id))
    ensures Resolve(Text("$subject.org_id"), s, c) == Some(Text(s.org))
    ensures Resolve(Text("$subject.org_scope_ids"), s, c) == Some(Texts(s.orgScope))
    ensures Resolve(Text("$subject.reporting_scope_user_ids"), s, c) == Some(Texts(s.reporting))
    ensures Resolve(Text("$context.business_profile_id"), s, c) == c.profile
  {
  }

  lemma TextsResolve(texts: seq<string>, s: Subject, c: Context)
    ensures Resolve(Texts(texts), s, c) == Some(Texts(texts))
  {
  }

  /** A claim and the value it compiles to resolve alike. */
  lemma ClaimsResolve(key: string, p: Principal, c: Context)
    ensures Resolve(ActorClaim(key, p), SubjectOf(p), c) == ClaimValue(key, p, c)
  {
    OtherClaimsResolve(key, SubjectOf(p), c);
    NamedClaimsResolve(SubjectOf(p), c);
    TextsResolve(p.supportScope, SubjectOf(p), c);
    hide Lower, Resolve, Get;
  }

  lemma LeafKeepsMeaning(e: Expression, p: Principal, c: Context, r: Record)
    requires Comparison(e) && WellFormed(e)
    ensures Eval(Compile(e, p), SubjectOf(p), c, r) <==> Holds(e, p, c, r)
  {
    if FromClaim(e) { ClaimsResolve(e.claim, p, c); }
  }

  /** What a comparison with literals admits, told from the record alone: "in" asks
      that a single text is one of the values, any other operator that the whole
      value is the one value, or the list of them. */
  lemma LiteralLeafMeans(e: Expression, p: Principal, c: Context, r: Record)
    requires Comparison(e) && Shaped(e) && !FromClaim(e)
    ensures var have := Get(r, Fact(e.path, e.field));
      Eval(Compile(e, p), SubjectOf(p), c, r) <==>
        if Lower(e.operator) == "in" then have.Some? && have.value.Text? && have.value.text in e.values
        else have == Some(if |e.values| == 1 then Text(e.values[0]) else Texts(e.values))
  {
  }

  /** Compilation keeps meaning: against the bundle's subject the predicate
      admits exactly the records the expression admits for the principal. */
  lemma {:induction false} CompileKeepsMeaning(e: Expression, p: Principal, c: Context, r: Record)
    requires WellFormed(e)
    ensures Eval(Compile(e, p), SubjectOf(p), c, r) <==> Holds(e, p, c, r)
    decreases e
  {
    var op := Lower(e.operator);
    if op == "and" || op == "or" {
      var compiled := seq(|e.children|, i requires 0 <= i < |e.children| => Compile(e.children[i], p));
      forall i | 0 <= i < |e.children|
        ensures Eval(compiled[i], SubjectOf(p), c, r) <==> Holds(e.children[i], p, c, r)
      {
        CompileKeepsMeaning(e.children[i], p, c, r);
      }
      if op == "and" {
        assert Compile(e, p) == All(compiled);
      } else {
        assert Compile(e, p) == Any(compiled);
      }
    } else if op == "not" {
      CompileKeepsMeaning(e.children[0], p, c, r);
    } else {
      LeafKeepsMeaning(e, p, c, r);
    }
  }

  /** The side condition on literals is exact: an equality with one literal is
      kept for every principal, context and record if and only if the literal
      does not read as a placeholder. */
  lemma LiteralKeptExactly(field: string, v: string)
    requires field != ""
    ensures
      var e := Expression("eq", [], field, "literal", "", [v], []);
      !Placeholder(v) <==> forall p, c, r :: Eval(Compile(e, p), SubjectOf(p), c, r) <==> Holds(e, p, c, r)
  {
    var e := Expression("eq", [], field, "literal", "", [v], []);
    assert Lower("eq") == "eq" && Lower("literal") == "literal";
    if Placeholder(v) {
      var p := Principal("", "", "", [], "", [], []);
      var c := Context(None, map[]);
      var r := map[Fact([], field) := Text(v)];
      assert Holds(e, p, c, r);
      assert Compile(e, p) == Leaf(Fact([], field), Equal, Text(v));
      assert !Eval(Compile(e, p), SubjectOf(p), c, r);
    } else {
      forall p, c, r ensures Eval(Compile(e, p), SubjectOf(p), c, r) <==> Holds(e, p, c, r) {
        LeafKeepsMeaning(e, p, c, r);
      }
    }
  }

  // ---------------------------------------------------------------------
  // Malformed fragments
  // ---------------------------------------------------------------------

  /** What a field rule does to the records that its predicate admits: it opens
      the field for them, or takes something of it away. */
  datatype Effect = Allow | Deny | Hide | Mask

  /** A rule that should have applied as `meant` but applied as `did` lets more
      through than it should. */
  predicate Loosens(effect: Effect, did: bool, meant: bool) {
    if effect == Allow then did && !meant else meant && !did
  }

  /** What each malformed fragment was meant to admit. */
  type Reading = (Expression, Principal, Context, Record) -> bool

  /** The records an expression would admit if each malformed fragment meant
      what `reading` says. Without such fragments this is its meaning. */
  ghost predicate Intended(e: Expression, p: Principal, c: Context, r: Record, reading: Reading) {
    if !Shaped(e) then reading(e, p, c, r)
    else if Lower(e.operator) == "and"
    then forall i :: 0 <= i < |e.children| ==> Intended(e.children[i], p, c, r, reading)
    else if Lower(e.operator) == "or"
    then exists i :: 0 <= i < |e.children| && Intended(e.children[i], p, c, r, reading)
    else if Lower(e.operator) == "not" then !Intended(e.children[0], p, c, r, reading)
    else Holds(e, p, c, r)
  }

  /** A placeholder that nothing resolves. */
  predicate Unknown(s: string) {
    Placeholder(s) && !(CLAIMS <= s)
    && s !in {"$subject.id", "$subject.org_id", "$subject.org_scope_ids", "$subject.support_org_scope_ids",
              "$subject.reporting_scope_user_ids", "$context.business_profile_id"}
  }

  /** A malformed fragment that compiles to a predicate no record satisfies: an
      empty "or", nothing to compare, or nothing to compare it with. */
  predicate AdmitsNone(e: Expression) {
    if Lower(e.operator) == "and" then false
    else if Lower(e.operator) == "or" then true
    else
      e.field == "" || Fact(e.path, e.field) == UNSUPPORTED_FACT
      || (!FromClaim(e) && |e.values| == 1 && Unknown(e.values[0]))
  }

  /** A malformed fragment that compiles to a predicate every record satisfies:
      an empty "and". */
  predicate AdmitsAll(e: Expression) {
    Lower(e.operator) == "and"
  }

  /** A malformed fragment errs to the safe side: it admits nothing where more
      would loosen the rule, and everything where less would. */
  predicate Safe(e: Expression, odd: bool) {
    if odd then AdmitsAll(e) else AdmitsNone(e)
  }

  /** Every malformed fragment errs to the safe side of the place it stands at.
      `odd` says whether more records at this place mean fewer in the end. */
  ghost predicate AllSafe(e: Expression, odd: bool) {
    if !Shaped(e) then Safe(e, odd)
    else if Lower(e.operator) == "and" || Lower(e.operator) == "or" then
      forall i :: 0 <= i < |e.children| ==> AllSafe(e.children[i], odd)
    else Lower(e.operator) == "not" ==> AllSafe(e.children[0], !odd)
  }

  lemma ConnectiveEval(e: Expression, p: Principal, c: Context, r: Record)
    ensures Lower(e.operator) == "and" ==> (Eval(Compile(e, p), SubjectOf(p), c, r)
      <==> forall i :: 0 <= i < |e.children| ==> Eval(Compile(e.children[i], p), SubjectOf(p), c, r))
    ensures Lower(e.operator) == "or" ==> (Eval(Compile(e, p), SubjectOf(p), c, r)
      <==> exists i :: 0 <= i < |e.children| && Eval(Compile(e.children[i], p), SubjectOf(p), c, r))
    ensures Lower(e.operator) == "not" && |e.children| == 1 ==>
      (Eval(Compile(e, p), SubjectOf(p), c, r) <==> !Eval(Compile(e.children[0], p), SubjectOf(p), c, r))
    ensures Comparison(e) || (Lower(e.operator) == "not" && |e.children| != 1) ==> Compile(e, p) == CompileLeaf(e, p)
  {
    var op := Lower(e.operator);
    if op == "and" || op == "or" {
      var compiled := seq(|e.children|, i requires 0 <= i < |e.children| => Compile(e.children[i], p));
      assert Compile(e, p) == if op == "and" then All(compiled) else Any(compiled);
      assert forall i :: 0 <= i < |compiled| ==> compiled[i] == Compile(e.children[i], p);
    }
  }

  lemma MalformedLeaf(e: Expression, p: Principal)
    requires !Shaped(e) && Lower(e.operator) != "and" && Lower(e.operator) != "or"
    ensures Compile(e, p) == CompileLeaf(e, p)
    ensures e.field == "" ==> Compile(e, p) == UNSUPPORTED
    ensures e.field != "" ==> Compile(e, p) == Leaf(Fact(e.path, e.field), Equal,
      if FromClaim(e) then ActorClaim(e.claim, p) else if |e.values| == 1 then Text(e.values[0]) else Texts(e.values))
  {
  }

  /** What a malformed fragment admits when it errs to one side. */
  lemma ErringFragment(e: Expression, p: Principal, c: Context, r: Record)
    requires !Shaped(e) && UNSUPPORTED_FACT !in r
    ensures AdmitsNone(e) ==> !Eval(Compile(e, p), SubjectOf(p), c, r)
    ensures AdmitsAll(e) ==> Eval(Compile(e, p), SubjectOf(p), c, r)
  {
    ConnectiveEval(e, p, c, r);
    if Lower(e.operator) != "and" && Lower(e.operator) != "or" { MalformedLeaf(e, p); }
    hide Lower, Compile, CompileLeaf, Shaped, ActorClaim;
  }

  /** Somebody whom any claim resolves for. */
  function Anybody(): Principal {
    Principal("", "", "", [], "", [], [])
  }

  lemma ResolvesForSomebody(e: Expression) returns (c: Context, v: Value)
    requires !FromClaim(e) && |e.values| == 1 ==> !Unknown(e.values[0])
    ensures var want := if FromClaim(e) then ActorClaim(e.claim, Anybody())
                        else if |e.values| == 1 then Text(e.values[0]) else Texts(e.values);
      Resolve(want, SubjectOf(Anybody()), c) == Some(v)
  {
    var name := if FromClaim(e) then e.claim
                else if |e.values| == 1 && CLAIMS <= e.values[0] then e.values[0][|CLAIMS|..] else "";
    c := Context(Some(Text("")), map[name := Text("")]);
    if FromClaim(e) {
      ClaimsResolve(e.claim, Anybody(), c);
      v := ClaimValue(e.claim, Anybody(), c).value;
    } else if |e.values| == 1 {
      v := Resolve(Text(e.values[0]), SubjectOf(Anybody()), c).value;
    } else {
      v := Texts(e.values);
    }
  }

  /** A malformed fragment that need not admit nothing does admit something. */
  lemma AdmitsSomething(e: Expression) returns (p: Principal, c: Context, r: Record)
    requires !Shaped(e) && !AdmitsNone(e)
    ensures UNSUPPORTED_FACT !in r && Eval(Compile(e, p), SubjectOf(p), c, r)
  {
    p, c, r := Anybody(), Context(None, map[]), map[];
    if Lower(e.operator) == "and" {
      ConnectiveEval(e, p, c, r);
    } else {
      MalformedLeaf(e, p);
      var v;
      c, v := ResolvesForSomebody(e);
      r := map[Fact(e.path, e.field) := v];
      hide Lower, Compile, CompileLeaf, Shaped, ActorClaim, Resolve, Unknown;
      assert Get(r, Fact(e.path, e.field)) == Some(v);
    }
  }

  /** One that need not admit everything does not admit the empty record. */
  lemma RefusesSomething(e: Expression, p: Principal, c: Context)
    requires !Shaped(e) && !AdmitsAll(e)
    ensures !Eval(Compile(e, p), SubjectOf(p), c, map[])
  {
    ConnectiveEval(e, p, c, map[]);
    if Lower(e.operator) != "or" { MalformedLeaf(e, p); }
    hide Lower, Compile, CompileLeaf, Shaped, ActorClaim, Resolve;
  }

  /** Where every malformed fragment errs to the safe side, the whole does:
      whatever the fragments were meant to admit, a rule under this predicate
      never lets more through. */
  lemma {:induction false} SafeFragmentsErrSafely(e: Expression, odd: bool, p: Principal, c: Context, r: Record,
                                                  reading: Reading)
    requires UNSUPPORTED_FACT !in r && AllSafe(e, odd)
    ensures !odd ==> (Eval(Compile(e, p), SubjectOf(p), c, r) ==> Intended(e, p, c, r, reading))
    ensures odd ==> (Intended(e, p, c, r, reading) ==> Eval(Compile(e, p), SubjectOf(p), c, r))
    decreases e
  {
    if !Shaped(e) {
      hide Eval, Compile, Shaped, AdmitsNone, AdmitsAll, Lower;
      ErringFragment(e, p, c, r);
    } else if Lower(e.operator) == "and" || Lower(e.operator) == "or" {
      ConnectiveEval(e, p, c, r);
      hide Eval, Compile, Shaped, Lower;
      forall i | 0 <= i < |e.children|
        ensures !odd ==>
          (Eval(Compile(e.children[i], p), SubjectOf(p), c, r) ==> Intended(e.children[i], p, c, r, reading))
        ensures odd ==>
          (Intended(e.children[i], p, c, r, reading) ==> Eval(Compile(e.children[i], p), SubjectOf(p), c, r))
      {
        SafeFragmentsErrSafely(e.children[i], odd, p, c, r, reading);
      }
    } else if Lower(e.operator) == "not" {
      ConnectiveEval(e, p, c, r);
      hide Eval, Compile, Lower;
      SafeFragmentsErrSafely(e.children[0], !odd, p, c, r, reading);
    } else {
      LeafKeepsMeaning(e, p, c, r);
    }
  }

  /** A field rule fails closed when every malformed fragment of its predicate
      errs to the side that is safe for the rule's effect. */
  lemma FieldRuleFailsClosed(effect: Effect, e: Expression, p: Principal, c: Context, r: Record, reading: Reading)
    requires UNSUPPORTED_FACT !in r && AllSafe(e, effect != Allow)
    ensures !Loosens(effect, Eval(Compile(e, p), SubjectOf(p), c, r), Intended(e, p, c, r, reading))
  {
    SafeFragmentsErrSafely(e, effect != Allow, p, c, r, reading);
  }

  /** Without malformed fragments there is nothing to read into an expression. */
  lemma {:induction false} IntendedIsMeaning(e: Expression, p: Principal, c: Context, r: Record, reading: Reading)
    requires WellFormed(e)
    ensures Intended(e, p, c, r, reading) <==> Holds(e, p, c, r)
    decreases e
  {
    if !Comparison(e) {
      forall i | 0 <= i < |e.children|
        ensures Intended(e.children[i], p, c, r, reading) <==> Holds(e.children[i], p, c, r)
      {
        IntendedIsMeaning(e.children[i], p, c, r, reading);
      }
    }
  }

  /** A place in an expression, from the outside in. */
  datatype Turn = Conjunct | Disjunct | Negand

  function OperatorOf(t: Turn): string {
    match t
    case Conjunct => "and"
    case Disjunct => "or"
    case Negand => "not"
  }

  /** A fragment at a place, with nothing else beside it. */
  function Around(place: seq<Turn>, fragment: Expression): Expression {
    if place == [] then fragment
    else Expression(OperatorOf(place[0]), [], "", "", "", [], [Around(place[1..], fragment)])
  }

  predicate OddPlace(place: seq<Turn>) {
    place != [] && (if place[0] == Negand then !OddPlace(place[1..]) else OddPlace(place[1..]))
  }

  lemma LowerOfTurn(t: Turn)
    ensures Lower(OperatorOf(t)) == OperatorOf(t)
  {
  }

  /** What a fragment admits, and was meant to admit, the whole turns around
      under an odd number of negations. */
  lemma {:induction false} AroundTurns(place: seq<Turn>, fragment: Expression, p: Principal, c: Context, r: Record,
                                       reading: Reading)
    requires !Shaped(fragment)
    ensures Eval(Compile(Around(place, fragment), p), SubjectOf(p), c, r)
      <==> Eval(Compile(fragment, p), SubjectOf(p), c, r) != OddPlace(place)
    ensures Intended(Around(place, fragment), p, c, r, reading) <==> reading(fragment, p, c, r) != OddPlace(place)
    decreases place
  {
    if place != [] {
      var e, inner := Around(place, fragment), Around(place[1..], fragment);
      LowerOfTurn(place[0]);
      ConnectiveEval(e, p, c, r);
      hide Eval, Compile, Lower;
      assert e.children == [inner] && e.children[0] == inner;
      AroundTurns(place[1..], fragment, p, c, r, reading);
    }
  }

  /** A place at which more records mean that the rule lets fewer through. */
  predicate Inverted(place: seq<Turn>, effect: Effect) {
    OddPlace(place) != (effect != Allow)
  }

  /** Exactly when a malformed fragment at a place fails closed, for every
      principal, context, record and meaning it could have had: it must admit
      nothing, or everything where effect and negations turn it around. */
  lemma PlaceFailsClosedIff(place: seq<Turn>, fragment: Expression, effect: Effect)
    requires !Shaped(fragment)
    ensures (forall p, c, r, reading :: UNSUPPORTED_FACT !in r ==>
               !Loosens(effect, Eval(Compile(Around(place, fragment), p), SubjectOf(p), c, r),
                        Intended(Around(place, fragment), p, c, r, reading)))
      <==> Safe(fragment, Inverted(place, effect))
  {
    var e := Around(place, fragment);
    hide Eval, Compile, Intended, AdmitsNone, AdmitsAll, Shaped, Around, OddPlace;
    if Safe(fragment, Inverted(place, effect)) {
      forall p, c, r, reading | UNSUPPORTED_FACT !in r
        ensures !Loosens(effect, Eval(Compile(e, p), SubjectOf(p), c, r), Intended(e, p, c, r, reading))
      {
        ErringFragment(fragment, p, c, r);
        AroundTurns(place, fragment, p, c, r, reading);
      }
    } else {
      var p, c, r := Anybody(), Context(None, map[]), map[];
      if Inverted(place, effect) {
        RefusesSomething(fragment, p, c);
      } else {
        p, c, r := AdmitsSomething(fragment);
      }
      var reading := (x: Expression, p: Principal, c: Context, r: Record) => Inverted(place, effect);
      AroundTurns(place, fragment, p, c, r, reading);
      assert Loosens(effect, Eval(Compile(e, p), SubjectOf(p), c, r), Intended(e, p, c, r, reading));
    }
  }

  /** The smallest failing cases: a rule that allows under an empty "and", and a
      rule that denies, hides or masks under a comparison without a field. */
  lemma OpenFragments(effect: Effect)
    ensures var fragment := Expression(if effect == Allow then "and" else "eq", [], "", "", "", [], []);
      && !Shaped(fragment)
      && Eval(Compile(fragment, Anybody()), SubjectOf(Anybody()), Context(None, map[]), map[]) == (effect == Allow)
      && exists reading: Reading ::
           Loosens(effect, effect == Allow, Intended(fragment, Anybody(), Context(None, map[]), map[], reading))
  {
    var fragment := Expression(if effect == Allow then "and" else "eq", [], "", "", "", [], []);
    assert Lower("and") == "and" && Lower("eq") == "eq";
    ErringFragment(fragment, Anybody(), Context(None, map[]), map[]);
    var reading := (x: Expression, p: Principal, c: Context, r: Record) => effect != Allow;
    assert Intended(fragment, Anybody(), Context(None, map[]), map[], reading) == (effect != Allow);
  }

  // ---------------------------------------------------------------------
  // Data scopes
  // ---------------------------------------------------------------------

  datatype Scope = Everything | Owner | Org | OrgChild | TargetOrg | Other(name: string)

  const OWNER_USER := Fact([], "owner_user_id")
  const OWNER_ORG := Fact([], "owner_org_id")
  const SCOPE_FACT := Fact([], "__identity_scope_unsupported__")
  const POLICY_FACT := Fact([], "__identity_project_policy_invalid__")
  const NO_SCOPE := Leaf(SCOPE_FACT, Equal, Flag)
  const BAD_POLICY := Leaf(POLICY_FACT, Equal, Flag)

  function ScopePredicate(scope: Scope): Predicate {
    match scope
    case Everything => Nothing
    case Owner => Leaf(OWNER_USER, Equal, Text("$subject.id"))
    case Org => Leaf(OWNER_ORG, Equal, Text("$subject.org_id"))
    case OrgChild => Leaf(OWNER_ORG, In, Text("$subject.org_scope_ids"))
    case TargetOrg => Leaf(OWNER_ORG, In, Text("$subject.support_org_scope_ids"))
    case Other(_) => NO_SCOPE
  }

  function ScopePredicates(scopes: seq<Scope>): seq<Predicate> {
    seq(|scopes|, i requires 0 <= i < |scopes| => ScopePredicate(scopes[i]))
  }

  /** A policy written against the SDK's own language compiles or does not. */
  datatype Custom = NoPolicy | Compiles(predicate_: Predicate) | Invalid

  function EffectivePredicate(custom: Custom, scopes: seq<Scope>): Predicate {
    match custom
    case Compiles(q) => q
    case Invalid => BAD_POLICY
    case NoPolicy =>
      if Everything in scopes then Nothing
      else if |scopes| == 0 then NO_SCOPE
      else if |scopes| == 1 then ScopePredicate(scopes[0])
      else Any(ScopePredicates(scopes))
  }

  /** A project's own data policy replaces the scopes: the bundle admits what the
      policy admits, whatever the scopes are, and nothing under one that is
      invalid. */
  lemma CustomReplacesScopes(custom: Custom, scopes: seq<Scope>, s: Subject, c: Context, r: Record)
    ensures custom.Compiles? ==>
      (Eval(EffectivePredicate(custom, scopes), s, c, r) <==> Eval(custom.predicate_, s, c, r))
    ensures custom.Invalid? && POLICY_FACT !in r ==> !Eval(EffectivePredicate(custom, scopes), s, c, r)
  {
  }

  /** An example from end to end: under the policy that the owner is the caller, the
      records admitted are the caller's own. */
  lemma OwnRecordsOnly(scopes: seq<Scope>, p: Principal, c: Context, r: Record)
    ensures var policy := Compiles(Leaf(OWNER_USER, Equal, Text("$subject.id")));
      Eval(EffectivePredicate(policy, scopes), SubjectOf(p), c, r) <==> Get(r, OWNER_USER) == Some(Text(p.user))
  {
    NamedClaimsResolve(SubjectOf(p), c);
  }

  method EffectiveDataPredicate(custom: Custom, scopes: seq<Scope>) returns (q: Predicate)
    ensures q == EffectivePredicate(custom, scopes)
    ensures custom.Compiles? ==> forall s, c, r :: Eval(q, s, c, r) <==> Eval(custom.predicate_, s, c, r)
    ensures custom.Invalid? ==> forall s, c, r: Record :: POLICY_FACT !in r ==> !Eval(q, s, c, r)
  {
    forall s, c, r: Record
      ensures custom.Compiles? ==>
        (Eval(EffectivePredicate(custom, scopes), s, c, r) <==> Eval(custom.predicate_, s, c, r))
      ensures custom.Invalid? && POLICY_FACT !in r ==> !Eval(EffectivePredicate(custom, scopes), s, c, r)
    {
      CustomReplacesScopes(custom, scopes, s, c, r);
    }
    hide Eval;
    match custom {
      case Compiles(predicate_) => return predicate_;
      case Invalid => return BAD_POLICY;
      case NoPolicy =>
    }
    var predicates: seq<Predicate> := [];
    for i := 0 to |scopes|
      invariant Everything !in scopes[..i]
      invariant predicates == ScopePredicates(scopes[..i])
    {
      if scopes[i] == Everything { return Nothing; }
      predicates := predicates + [ScopePredicate(scopes[i])];
    }
    assert scopes[..|scopes|] == scopes;
    if |predicates| == 1 { return predicates[0]; }
    if |predicates| > 1 { return Any(predicates); }
    return NO_SCOPE;
  }

  /** A data policy of the bundle admits a record when it carries the
      unrestricted scope or its predicate does. */
  ghost predicate PolicyAdmits(scopes: seq<Scope>, q: Predicate, s: Subject, c: Context, r: Record) {
    Everything in scopes || Eval(q, s, c, r)
  }

  /** Which records one scope covers. */
  predicate ScopeCovers(scope: Scope, p: Principal, r: Record) {
    match scope
    case Everything => true
    case Owner => Get(r, OWNER_USER) == Some(Text(p.user))
    case Org => Get(r, OWNER_ORG) == Some(Text(p.org))
    case OrgChild => OWNER_ORG in r && r[OWNER_ORG].Text? && r[OWNER_ORG].text in p.orgScope
    case TargetOrg => OWNER_ORG in r && r[OWNER_ORG].Text? && r[OWNER_ORG].text in p.supportScope
    case Other(_) => false
  }

  lemma ScopeKeepsMeaning(scope: Scope, p: Principal, c: Context, r: Record)
    requires SCOPE_FACT !in r && scope != Everything
    ensures Eval(ScopePredicate(scope), SubjectOf(p), c, r) <==> ScopeCovers(scope, p, r)
  {
  }

  /** A list of scopes admits a record exactly when one of them covers it; the
      unrestricted scope absorbs the others wherever it stands, and an empty
      list admits nothing. */
  lemma ScopesKeepMeaning(scopes: seq<Scope>, p: Principal, c: Context, r: Record)
    requires SCOPE_FACT !in r
    ensures PolicyAdmits(scopes, EffectivePredicate(NoPolicy, scopes), SubjectOf(p), c, r)
            <==> exists i :: 0 <= i < |scopes| && ScopeCovers(scopes[i], p, r)
  {
    if Everything in scopes {
      var i :| 0 <= i < |scopes| && scopes[i] == Everything;
      assert ScopeCovers(scopes[i], p, r);
    } else {
      forall i | 0 <= i < |scopes|
        ensures Eval(ScopePredicates(scopes)[i], SubjectOf(p), c, r) <==> ScopeCovers(scopes[i], p, r)
      {
        ScopeKeepsMeaning(scopes[i], p, c, r);
      }
      if |scopes| == 1 { assert ScopePredicates(scopes)[0] == ScopePredicate(scopes[0]); }
    }
  }

  /** The storage-side reading of the same scopes: one filter over owner ids,
      from which blank ids are dropped. */
  datatype Filter = Unrestricted | Restricted(users: set<string>, orgs: set<string>)

  function NonBlank(ids: seq<string>): set<string> {
    set id | id in ids && id != ""
  }

  function FilterOf(scopes: seq<Scope>, p: Principal): Filter {
    if scopes == [] then Restricted({}, {})
    else if scopes[0] == Everything then Unrestricted
    else match FilterOf(scopes[1..], p)
      case Unrestricted => Unrestricted
      case Restricted(users, orgs) =>
        match scopes[0]
        case Owner => Restricted(users + NonBlank([p.user]), orgs)
        case Org => Restricted(users, orgs + NonBlank([p.org]))
        case OrgChild => Restricted(users, orgs + NonBlank(p.orgScope))
        case TargetOrg => Restricted(users, orgs + NonBlank(p.supportScope))
        case _ => Restricted(users, orgs)
  }

  /** `user` and `org` are the record's owner facts, blank when missing. */
  predicate FilterAllows(f: Filter, user: string, org: string) {
    f.Unrestricted? || user in f.users || org in f.orgs
  }

  function OwnerText(r: Record, fact: Fact): string {
    if fact in r && r[fact].Text? then r[fact].text else ""
  }

  /** The owner ids a scope stands for, with the fact they are compared to. */
  function ScopeIds(scope: Scope, p: Principal): seq<string> {
    match scope
    case Owner => [p.user]
    case Org => [p.org]
    case OrgChild => p.orgScope
    case TargetOrg => p.supportScope
    case _ => []
  }

  predicate NoBlankIds(scopes: seq<Scope>, p: Principal) {
    forall i :: 0 <= i < |scopes| ==> "" !in ScopeIds(scopes[i], p)
  }

  predicate OwnersNamed(r: Record) {
    Get(r, OWNER_USER) != Some(Text("")) && Get(r, OWNER_ORG) != Some(Text(""))
  }

  lemma {:induction false} FilterCovers(scopes: seq<Scope>, p: Principal, r: Record)
    requires OwnersNamed(r) || NoBlankIds(scopes, p)
    ensures FilterAllows(FilterOf(scopes, p), OwnerText(r, OWNER_USER), OwnerText(r, OWNER_ORG))
            <==> exists i :: 0 <= i < |scopes| && ScopeCovers(scopes[i], p, r)
  {
    if scopes != [] {
      var rest := scopes[1..];
      FilterCovers(rest, p, r);
      assert scopes == [scopes[0]] + rest;
      assert (exists i :: 0 <= i < |scopes| && ScopeCovers(scopes[i], p, r))
        <==> ScopeCovers(scopes[0], p, r) || exists i :: 0 <= i < |rest| && ScopeCovers(rest[i], p, r) by {
        if i :| 0 <= i < |rest| && ScopeCovers(rest[i], p, r) { assert scopes[i + 1] == rest[i]; }
        if i :| 0 <= i < |scopes| && ScopeCovers(scopes[i], p, r) {
          if i > 0 { assert rest[i - 1] == scopes[i]; }
        }
      }
      assert !OwnersNamed(r) ==> "" !in ScopeIds(scopes[0], p);
    }
  }

  ghost predicate Agree(scopes: seq<Scope>, p: Principal, c: Context, r: Record) {
    PolicyAdmits(scopes, EffectivePredicate(NoPolicy, scopes), SubjectOf(p), c, r)
    <==> FilterAllows(FilterOf(scopes, p), OwnerText(r, OWNER_USER), OwnerText(r, OWNER_ORG))
  }

  /** The bundle and the storage filter decide alike on every record that names
      its owners; they do so on all records exactly when some scope is
      unrestricted or no scope of the principal contains a blank id. */
  lemma BundleAgreesWithFilter(scopes: seq<Scope>, p: Principal)
    ensures forall c, r :: SCOPE_FACT !in r && OwnersNamed(r) ==> Agree(scopes, p, c, r)
    ensures (forall c, r :: SCOPE_FACT !in r ==> Agree(scopes, p, c, r))
      <==> Everything in scopes || NoBlankIds(scopes, p)
  {
    forall c, r | SCOPE_FACT !in r && (OwnersNamed(r) || NoBlankIds(scopes, p)) ensures Agree(scopes, p, c, r) {
      ScopesKeepMeaning(scopes, p, c, r);
      FilterCovers(scopes, p, r);
    }
    if Everything in scopes {
      EverythingUnrestricts(scopes, p);
    } else if !NoBlankIds(scopes, p) {
      var i :| 0 <= i < |scopes| && "" in ScopeIds(scopes[i], p);
      var r := map[if scopes[i] == Owner then OWNER_USER else OWNER_ORG := Text("")];
      var c := Context(None, map[]);
      assert ScopeCovers(scopes[i], p, r);
      ScopesKeepMeaning(scopes, p, c, r);
      BlankNeverAllowed(scopes, p);
      assert !Agree(scopes, p, c, r);
    }
  }

  lemma {:induction false} EverythingUnrestricts(scopes: seq<Scope>, p: Principal)
    requires Everything in scopes
    ensures FilterOf(scopes, p) == Unrestricted
  {
    if scopes[0] != Everything { EverythingUnrestricts(scopes[1..], p); }
  }

  lemma {:induction false} BlankNeverAllowed(scopes: seq<Scope>, p: Principal)
    requires Everything !in scopes
    ensures !FilterAllows(FilterOf(scopes, p), "", "")
  {
    if scopes != [] { BlankNeverAllowed(scopes[1..], p); }
  }

  // ---------------------------------------------------------------------
  // The access bundle: subject and function grants
  // ---------------------------------------------------------------------

  datatype Grant = Grant(resource: string, action: string)
  datatype Bundle = Bundle(subject: Subject, grants: seq<Grant>)

  /** A permission grants its function when it names an object and an action;
      the same pair under several data scopes grants it once. */
  function Grants(permissions: seq<Grant>): (r: seq<Grant>)
    ensures forall g :: g in r <==> g in permissions && g.resource != "" && g.action != ""
    ensures forall i, j :: 0 <= i < j < |r| ==> r[i] != r[j]
  {
    if permissions == [] then []
    else
      var last, before := permissions[|permissions| - 1], Grants(permissions[..|permissions| - 1]);
      assert permissions == permissions[..|permissions| - 1] + [last];
      if last.resource != "" && last.action != "" && last !in before then before + [last] else before
  }

  method AccessBundle(permissions: seq<Grant>, p: Principal) returns (bundle: Bundle)
    ensures bundle == Bundle(SubjectOf(p), Grants(permissions))
    ensures bundle.subject
      == Subject(p.workspace, p.user, p.org, p.orgScope, p.supportOrg, p.supportScope, p.reporting)
  {
    var reporting: seq<string> := [];
    for i := 0 to |p.reporting|
      invariant reporting == p.reporting[..i]
    {
      reporting := reporting + [p.reporting[i]];
    }
    var granted: set<Grant>, grants: seq<Grant> := {}, [];
    for i := 0 to |permissions|
      invariant grants == Grants(permissions[..i])
      invariant forall g :: g in granted <==> g in grants
    {
      assert permissions[..i + 1][..i] == permissions[..i];
      var g := permissions[i];
      if g.resource != "" && g.action != "" {
        if g in granted { continue; }
        granted := granted + {g};
        grants := grants + [g];
      }
    }
    assert permissions[..|permissions|] == permissions;
    return Bundle(Subject(p.workspace, p.user, p.org, p.orgScope, p.supportOrg, p.supportScope, reporting), grants);
  }
}
