/** Mutations of a candidate manifest: objects with their fields and validations,
    actions, roles and profile extensions are replaced and removed by key. */
module CandidateMutations {
  import opened Options
  import opened Lookup
  import opened KeyedLists

  datatype Field = Field(key: string, body: string)
  datatype Validation = Validation(key: string, objectKey: string, body: string)
  datatype Object = Object(key: string, body: string, fields: seq<Field>, validations: seq<Validation>)

  /** An action, a role or a profile extension. */
  datatype Definition = Definition(key: string, body: string)

  datatype Manifest = Manifest(objects: seq<Object>, actions: seq<Definition>, roles: seq<Definition>,
                               profiles: seq<Definition>)

  datatype Operation = Create | Update | Archive | Delete | Noop | OtherOperation(name: string)

  datatype ResourceType =
    | ObjectType | FieldType | ValidationType | ActionType | RoleType | ProfileType
    | OtherType(name: string)

  /** What a payload decodes to, read as each type of resource. */
  datatype Payload = Payload(asObject: Option<Object>, asField: Option<Field>, asValidation: Option<Validation>,
                             asDefinition: Option<Definition>)

  datatype Mutation = Mutation(operation: Operation, resource: ResourceType, key: string, objectKey: string,
                               payload: Payload)

  datatype Error =
    | UnsupportedOperation
    | UnsupportedType
    | Undecodable
    | KeyMismatch
    | UnknownObject
    | ObjectKeyMismatch

  datatype Result = Ok(manifest: Manifest) | Err(error: Error)

  function ObjectKey(o: Object): string { o.key }

  function FieldKey(f: Field): string { f.key }

  function ValidationKey(v: Validation): string { v.key }

  function DefinitionKey(d: Definition): string { d.key }

  predicate Removes(mu: Mutation) {
    mu.operation == Archive || mu.operation == Delete
  }

  predicate Writes(mu: Mutation) {
    mu.operation == Create || mu.operation == Update
  }

  /** The text before and after the first dot. */
  function SplitDot(s: string): Option<(string, string)> {
    if s == "" then None
    else if s[0] == '.' then Some(("", s[1..]))
    else match SplitDot(s[1..])
      case None => None
      case Some((before, after)) => Some(([s[0]] + before, after))
  }

  /** The object and the key that a field mutation is about. */
  function FieldAddress(mu: Mutation): (string, string) {
    match SplitDot(mu.key)
    case None => (mu.objectKey, "")
    case Some((before, after)) => (if mu.objectKey == "" then before else mu.objectKey, after)
  }

  function ValidationObject(mu: Mutation): string {
    if mu.objectKey != "" then mu.objectKey
    else match mu.payload.asValidation
      case None => ""
      case Some(v) => v.objectKey
  }

  // ---------------------------------------------------------------------
  // Applying one mutation
  // ---------------------------------------------------------------------

  function WithObjects(m: Manifest, objects: seq<Object>): Result {
    Ok(m.(objects := objects))
  }

  /** A new object brings its own members; a known one keeps those it has. */
  function Merged(m: Manifest, v: Object): Object {
    var p := Position(ObjectKey, m.objects, v.key, 0);
    if p < |m.objects| then v.(fields := m.objects[p].fields, validations := m.objects[p].validations) else v
  }

  function ApplyObject(m: Manifest, mu: Mutation): Result {
    if Removes(mu) then WithObjects(m, Remove(ObjectKey, m.objects, mu.key))
    else match mu.payload.asObject
      case None => Err(Undecodable)
      case Some(v) =>
        if v.key != mu.key then Err(KeyMismatch)
        else WithObjects(m, Replace(ObjectKey, m.objects, mu.key, Merged(m, v)))
  }

  function ApplyField(m: Manifest, mu: Mutation): Result {
    var (o, f) := FieldAddress(mu);
    var p := Position(ObjectKey, m.objects, o, 0);
    if p == |m.objects| then Err(UnknownObject)
    else
      var owner := m.objects[p];
      if Removes(mu) then WithObjects(m, m.objects[p := owner.(fields := Remove(FieldKey, owner.fields, f))])
      else match mu.payload.asField
        case None => Err(Undecodable)
        case Some(v) =>
          if v.key != f then Err(KeyMismatch)
          else WithObjects(m, m.objects[p := owner.(fields := Replace(FieldKey, owner.fields, f, v))])
  }

  function ApplyValidation(m: Manifest, mu: Mutation): Result {
    var o := ValidationObject(mu);
    var p := Position(ObjectKey, m.objects, o, 0);
    if p == |m.objects| then Err(UnknownObject)
    else
      var owner := m.objects[p];
      if Removes(mu) then
        WithObjects(m, m.objects[p := owner.(validations := Remove(ValidationKey, owner.validations, mu.key))])
      else match mu.payload.asValidation
        case None => Err(Undecodable)
        case Some(v) =>
          if v.key != mu.key then Err(KeyMismatch)
          else if v.objectKey != o then Err(ObjectKeyMismatch)
          else
            WithObjects(m, m.objects[p := owner.(validations := Replace(ValidationKey, owner.validations, mu.key, v))])
  }

  datatype Definitions = Applied(list: seq<Definition>) | Failed(error: Error)

  function ApplyDefinition(list: seq<Definition>, mu: Mutation): Definitions {
    if Removes(mu) then Applied(Remove(DefinitionKey, list, mu.key))
    else match mu.payload.asDefinition
      case None => Failed(Undecodable)
      case Some(v) =>
        if v.key != mu.key then Failed(KeyMismatch) else Applied(Replace(DefinitionKey, list, mu.key, v))
  }

  function ApplyIn(m: Manifest, mu: Mutation): Result {
    if mu.operation == Noop then Ok(m)
    else if !Removes(mu) && !Writes(mu) then Err(UnsupportedOperation)
    else match mu.resource
      case ObjectType => ApplyObject(m, mu)
      case FieldType => ApplyField(m, mu)
      case ValidationType => ApplyValidation(m, mu)
      case ActionType =>
        (match ApplyDefinition(m.actions, mu) case Applied(list) => Ok(m.(actions := list)) case Failed(e) => Err(e))
      case RoleType =>
        (match ApplyDefinition(m.roles, mu) case Applied(list) => Ok(m.(roles := list)) case Failed(e) => Err(e))
      case ProfileType =>
        (match ApplyDefinition(m.profiles, mu) case Applied(list) => Ok(m.(profiles := list)) case Failed(e) => Err(e))
      case OtherType(_) => Err(UnsupportedType)
  }

  /** All mutations in turn, up to the first that fails. */
  function ApplyAll(m: Manifest, mus: seq<Mutation>, n: nat): Result
    requires n <= |mus|
  {
    if n == 0 then Ok(m)
    else match ApplyAll(m, mus, n - 1)
      case Err(e) => Err(e)
      case Ok(before) => ApplyIn(before, mus[n - 1])
  }

  // ---------------------------------------------------------------------
  // The candidate
  // ---------------------------------------------------------------------

  class Candidate {
    var objects: seq<Object>
    var actions: seq<Definition>
    var roles: seq<Definition>
    var profiles: seq<Definition>

    constructor (m: Manifest)
      ensures Current() == m
    {
      objects, actions, roles, profiles := m.objects, m.actions, m.roles, m.profiles;
    }

    function Current(): Manifest
      reads this
    {
      Manifest(objects, actions, roles, profiles)
    }

    /** Applies one mutation in place; a mutation that fails changes nothing. */
    method Apply(mu: Mutation) returns (error: Option<Error>)
      modifies this
      ensures match ApplyIn(old(Current()), mu)
        case Ok(m) => error == None && Current() == m
        case Err(e) => error == Some(e) && Current() == old(Current())
    {
      if mu.operation == Noop { return None; }
      if !Removes(mu) && !Writes(mu) { return Some(UnsupportedOperation); }
      match mu.resource {
        case ObjectType => error := ApplyObjectMutation(mu);
        case FieldType => error := ApplyFieldMutation(mu);
        case ValidationType => error := ApplyValidationMutation(mu);
        case ActionType =>
          var list;
          list, error := ApplySlice(actions, mu);
          actions := list;
        case RoleType =>
          var list;
          list, error := ApplySlice(roles, mu);
          roles := list;
        case ProfileType =>
          var list;
          list, error := ApplySlice(profiles, mu);
          profiles := list;
        case OtherType(_) => error := Some(UnsupportedType);
      }
    }

    method ApplyObjectMutation(mu: Mutation) returns (error: Option<Error>)
      modifies this
      ensures match ApplyObject(old(Current()), mu)
        case Ok(m) => error == None && Current() == m
        case Err(e) => error == Some(e) && Current() == old(Current())
    {
      if Removes(mu) {
        var kept := RemoveByKey(ObjectKey, objects, mu.key);
        objects := kept;
        return None;
      }
      if mu.payload.asObject == None { return Some(Undecodable); }
      var v := mu.payload.asObject.value;
      if v.key != mu.key { return Some(KeyMismatch); }
      var index := IndexOfKey(ObjectKey, objects, mu.key);
      if index >= 0 { v := v.(fields := objects[index].fields, validations := objects[index].validations); }
      var replaced := ReplaceByKey(ObjectKey, objects, mu.key, v);
      objects := replaced;
      return None;
    }

    method ApplyFieldMutation(mu: Mutation) returns (error: Option<Error>)
      modifies this
      ensures match ApplyField(old(Current()), mu)
        case Ok(m) => error == None && Current() == m
        case Err(e) => error == Some(e) && Current() == old(Current())
    {
      var (o, f) := FieldAddress(mu);
      var index := IndexOfKey(ObjectKey, objects, o);
      if index < 0 { return Some(UnknownObject); }
      if Removes(mu) {
        var kept := RemoveByKey(FieldKey, objects[index].fields, f);
        objects := objects[index := objects[index].(fields := kept)];
        return None;
      }
      if mu.payload.asField == None { return Some(Undecodable); }
      if mu.payload.asField.value.key != f { return Some(KeyMismatch); }
      var replaced := ReplaceByKey(FieldKey, objects[index].fields, f, mu.payload.asField.value);
      objects := objects[index := objects[index].(fields := replaced)];
      return None;
    }

    method ApplyValidationMutation(mu: Mutation) returns (error: Option<Error>)
      modifies this
      ensures match ApplyValidation(old(Current()), mu)
        case Ok(m) => error == None && Current() == m
        case Err(e) => error == Some(e) && Current() == old(Current())
    {
      var o := ValidationObject(mu);
      var index := IndexOfKey(ObjectKey, objects, o);
      if index < 0 { return Some(UnknownObject); }
      if Removes(mu) {
        var kept := RemoveByKey(ValidationKey, objects[index].validations, mu.key);
        objects := objects[index := objects[index].(validations := kept)];
        return None;
      }
      if mu.payload.asValidation == None { return Some(Undecodable); }
      var v := mu.payload.asValidation.value;
      if v.key != mu.key { return Some(KeyMismatch); }
      if v.objectKey != o { return Some(ObjectKeyMismatch); }
      var replaced := ReplaceByKey(ValidationKey, objects[index].validations, mu.key, v);
      objects := objects[index := objects[index].(validations := replaced)];
      return None;
    }

    method ApplyMutations(mus: seq<Mutation>) returns (error: Option<Error>)
      modifies this
      ensures match ApplyAll(old(Current()), mus, |mus|)
        case Ok(m) => error == None && Current() == m
        case Err(e) => error == Some(e)
    {
      hide ApplyIn;
      ghost var start := Current();
      for i := 0 to |mus|
        invariant ApplyAll(start, mus, i) == Ok(Current())
      {
        error := Apply(mus[i]);
        if error.Some? {
          FailureStays(start, mus, i + 1, error.value);
          return;
        }
      }
      return None;
    }
  }

  method ApplySlice(list: seq<Definition>, mu: Mutation) returns (out: seq<Definition>, error: Option<Error>)
    ensures match ApplyDefinition(list, mu)
      case Applied(l) => out == l && error == None
      case Failed(e) => out == list && error == Some(e)
  {
    if Removes(mu) {
      out := RemoveByKey(DefinitionKey, list, mu.key);
      return out, None;
    }
    if mu.payload.asDefinition == None { return list, Some(Undecodable); }
    if mu.payload.asDefinition.value.key != mu.key { return list, Some(KeyMismatch); }
    out := ReplaceByKey(DefinitionKey, list, mu.key, mu.payload.asDefinition.value);
    return out, None;
  }

  lemma {:induction false} FailureStays(m: Manifest, mus: seq<Mutation>, n: nat, e: Error)
    requires n <= |mus| && ApplyAll(m, mus, n) == Err(e)
    ensures ApplyAll(m, mus, |mus|) == Err(e)
    decreases |mus| - n
  {
    if n < |mus| { FailureStays(m, mus, n + 1, e); }
  }

  // ---------------------------------------------------------------------
  // A manifest as a finite map
  // ---------------------------------------------------------------------

  datatype Address =
    | OfObject(o: string)
    | OfField(o: string, k: string)
    | OfValidation(o: string, k: string)
    | OfAction(k: string)
    | OfRole(k: string)
    | OfProfile(k: string)

  /** What stands at an address; an object without its members. */
  datatype Resource =
    | Head(body: string)
    | FieldAt(f: Field)
    | ValidationAt(v: Validation)
    | DefinitionAt(d: Definition)

  function MemberOf(o: Object, a: Address): Option<Resource> {
    match a
    case OfField(_, k) => (match At(FieldKey, o.fields, k) case None => None case Some(f) => Some(FieldAt(f)))
    case OfValidation(_, k) =>
      (match At(ValidationKey, o.validations, k) case None => None case Some(v) => Some(ValidationAt(v)))
    case _ => Some(Head(o.body))
  }

  function DefinitionFound(list: seq<Definition>, k: string): Option<Resource> {
    match At(DefinitionKey, list, k)
    case None => None
    case Some(d) => Some(DefinitionAt(d))
  }

  function InObjects(objects: seq<Object>, a: Address): Option<Resource>
    requires a.OfObject? || a.OfField? || a.OfValidation?
  {
    match At(ObjectKey, objects, a.o)
    case None => None
    case Some(o) => MemberOf(o, a)
  }

  function Found(m: Manifest, a: Address): Option<Resource> {
    match a
    case OfAction(k) => DefinitionFound(m.actions, k)
    case OfRole(k) => DefinitionFound(m.roles, k)
    case OfProfile(k) => DefinitionFound(m.profiles, k)
    case _ => InObjects(m.objects, a)
  }

  function AddressOf(mu: Mutation): Option<Address> {
    match mu.resource
    case ObjectType => Some(OfObject(mu.key))
    case FieldType => Some(OfField(FieldAddress(mu).0, FieldAddress(mu).1))
    case ValidationType => Some(OfValidation(ValidationObject(mu), mu.key))
    case ActionType => Some(OfAction(mu.key))
    case RoleType => Some(OfRole(mu.key))
    case ProfileType => Some(OfProfile(mu.key))
    case OtherType(_) => None
  }

  /** The resource a writing mutation brings. */
  function Brought(mu: Mutation): Option<Resource> {
    match mu.resource
    case ObjectType => (match mu.payload.asObject case None => None case Some(o) => Some(Head(o.body)))
    case FieldType => (match mu.payload.asField case None => None case Some(f) => Some(FieldAt(f)))
    case ValidationType => (match mu.payload.asValidation case None => None case Some(v) => Some(ValidationAt(v)))
    case OtherType(_) => None
    case _ => (match mu.payload.asDefinition case None => None case Some(d) => Some(DefinitionAt(d)))
  }

  /** Whether the address is the object's own or of one of its members. */
  predicate Within(a: Address, o: string) {
    (a.OfObject? || a.OfField? || a.OfValidation?) && a.o == o
  }

  /** What a mutation makes of the map, one address at a time: it writes or
      removes its own address; removing an object removes its members with it;
      a new object brings members, a known one keeps them. */
  function Change(mu: Mutation, known: bool, a: Address, before: Option<Resource>): Option<Resource> {
    if mu.operation == Noop then before
    else if Removes(mu) then
      if AddressOf(mu) == Some(a) || (mu.resource == ObjectType && Within(a, mu.key)) then None else before
    else if AddressOf(mu) == Some(a) then Brought(mu)
    else if mu.resource == ObjectType && !known && Within(a, mu.key) && mu.payload.asObject.Some?
      then MemberOf(mu.payload.asObject.value, a)
    else before
  }

  ghost predicate MembersDistinct(o: Object) {
    DistinctKeys(FieldKey, o.fields) && DistinctKeys(ValidationKey, o.validations)
  }

  ghost predicate ObjectsUnique(objects: seq<Object>) {
    DistinctKeys(ObjectKey, objects) && forall i :: 0 <= i < |objects| ==> MembersDistinct(objects[i])
  }

  /** No two resources share an address. */
  ghost predicate Unique(m: Manifest) {
    && ObjectsUnique(m.objects)
    && DistinctKeys(DefinitionKey, m.actions) && DistinctKeys(DefinitionKey, m.roles)
    && DistinctKeys(DefinitionKey, m.profiles)
  }

  /** An object that is new to the manifest brings members with distinct keys. */
  ghost predicate BringsUnique(m: Manifest, mu: Mutation) {
    var isNew := Writes(mu) && mu.resource == ObjectType && Found(m, OfObject(mu.key)) == None;
    isNew && mu.payload.asObject.Some? ==> MembersDistinct(mu.payload.asObject.value)
  }

  // One lemma a list: what the list finds afterwards.

  lemma DefinitionChange(list: seq<Definition>, mu: Mutation, k: string)
    requires ApplyDefinition(list, mu).Applied?
    ensures var after := ApplyDefinition(list, mu).list;
      DefinitionFound(after, k) ==
        if k != mu.key then DefinitionFound(list, k)
        else if Removes(mu) then None else Some(DefinitionAt(mu.payload.asDefinition.value))
    ensures DistinctKeys(DefinitionKey, list) ==> DistinctKeys(DefinitionKey, ApplyDefinition(list, mu).list)
    ensures Remove(DefinitionKey, ApplyDefinition(list, mu).list, mu.key) == Remove(DefinitionKey, list, mu.key)
  {
    if Removes(mu) {
      RemoveFinds(DefinitionKey, list, mu.key, k);
      RemoveTwice(DefinitionKey, list, mu.key);
      if DistinctKeys(DefinitionKey, list) { RemoveDistinct(DefinitionKey, list, mu.key); }
    } else {
      var v := mu.payload.asDefinition.value;
      ReplaceFinds(DefinitionKey, list, mu.key, v, k);
      ReplaceKeepsOthers(DefinitionKey, list, mu.key, v);
      if DistinctKeys(DefinitionKey, list) { ReplaceDistinct(DefinitionKey, list, mu.key, v); }
    }
  }

  lemma ObjectChange(m: Manifest, mu: Mutation, a: Address)
    requires Unique(m) && mu.resource == ObjectType && (Removes(mu) || Writes(mu)) && ApplyObject(m, mu).Ok?
    requires a.OfObject? || a.OfField? || a.OfValidation?
    ensures InObjects(ApplyObject(m, mu).manifest.objects, a)
      == Change(mu, Found(m, OfObject(mu.key)).Some?, a, InObjects(m.objects, a))
  {
    PositionFinds(ObjectKey, m.objects, mu.key);
    if Removes(mu) {
      RemoveFinds(ObjectKey, m.objects, mu.key, a.o);
    } else {
      ReplaceFinds(ObjectKey, m.objects, mu.key, Merged(m, mu.payload.asObject.value), a.o);
    }
  }

  /** Writing the object at its place, with other members. */
  lemma ObjectWritten(objects: seq<Object>, p: nat, x: Object, a: Address)
    requires DistinctKeys(ObjectKey, objects) && p < |objects| && x.key == objects[p].key
    requires a.OfObject? || a.OfField? || a.OfValidation?
    ensures InObjects(objects[p := x], a) == if a.o == x.key then MemberOf(x, a) else InObjects(objects, a)
    ensures a.o == x.key ==> InObjects(objects, a) == MemberOf(objects[p], a)
  {
    WriteFinds(ObjectKey, objects, p, x, a.o, |objects|);
    FindsAt(ObjectKey, objects, p, |objects|);
  }

  lemma FieldChange(m: Manifest, mu: Mutation, a: Address)
    requires Unique(m) && mu.resource == FieldType && (Removes(mu) || Writes(mu)) && ApplyField(m, mu).Ok?
    requires a.OfObject? || a.OfField? || a.OfValidation?
    ensures InObjects(ApplyField(m, mu).manifest.objects, a) == Change(mu, true, a, InObjects(m.objects, a))
  {
    var (o, f) := FieldAddress(mu);
    var p := Position(ObjectKey, m.objects, o, 0);
    var next := ApplyField(m, mu).manifest.objects[p];
    ObjectWritten(m.objects, p, next, a);
    if a.OfField? {
      if Removes(mu) {
        RemoveFinds(FieldKey, m.objects[p].fields, f, a.k);
      } else {
        ReplaceFinds(FieldKey, m.objects[p].fields, f, mu.payload.asField.value, a.k);
      }
    }
  }

  lemma ValidationChange(m: Manifest, mu: Mutation, a: Address)
    requires Unique(m) && mu.resource == ValidationType && (Removes(mu) || Writes(mu)) && ApplyValidation(m, mu).Ok?
    requires a.OfObject? || a.OfField? || a.OfValidation?
    ensures InObjects(ApplyValidation(m, mu).manifest.objects, a) == Change(mu, true, a, InObjects(m.objects, a))
  {
    var o := ValidationObject(mu);
    var p := Position(ObjectKey, m.objects, o, 0);
    var next := ApplyValidation(m, mu).manifest.objects[p];
    ObjectWritten(m.objects, p, next, a);
    if a.OfValidation? {
      if Removes(mu) {
        RemoveFinds(ValidationKey, m.objects[p].validations, mu.key, a.k);
      } else {
        ReplaceFinds(ValidationKey, m.objects[p].validations, mu.key, mu.payload.asValidation.value, a.k);
      }
    }
  }

  predicate InsideObjects(a: Address) {
    a.OfObject? || a.OfField? || a.OfValidation?
  }

  /** Mutations of objects and their members, seen from any address. */
  lemma ObjectsRefine(m: Manifest, mu: Mutation, a: Address)
    requires Unique(m) && (Removes(mu) || Writes(mu)) && ApplyIn(m, mu).Ok?
    requires mu.resource == ObjectType || mu.resource == FieldType || mu.resource == ValidationType
    ensures Found(ApplyIn(m, mu).manifest, a) == Change(mu, Found(m, OfObject(mu.key)).Some?, a, Found(m, a))
  {
    hide Unique, InObjects, ApplyObject, ApplyField, ApplyValidation;
    if InsideObjects(a) {
      match mu.resource {
        case ObjectType => ObjectChange(m, mu, a);
        case FieldType => FieldChange(m, mu, a);
        case ValidationType => ValidationChange(m, mu, a);
      }
    } else {
      OthersApart(m, mu, a);
    }
  }

  lemma OthersApart(m: Manifest, mu: Mutation, a: Address)
    requires (Removes(mu) || Writes(mu)) && ApplyIn(m, mu).Ok? && !InsideObjects(a)
    requires mu.resource == ObjectType || mu.resource == FieldType || mu.resource == ValidationType
    ensures Found(ApplyIn(m, mu).manifest, a) == Found(m, a)
    ensures forall known, before :: Change(mu, known, a, before) == before
  {
    hide DefinitionFound;
  }

  lemma DefinitionsRefine(m: Manifest, mu: Mutation, a: Address)
    requires (Removes(mu) || Writes(mu)) && ApplyIn(m, mu).Ok?
    requires mu.resource == ActionType || mu.resource == RoleType || mu.resource == ProfileType
    ensures Found(ApplyIn(m, mu).manifest, a) == Change(mu, Found(m, OfObject(mu.key)).Some?, a, Found(m, a))
  {
    match a {
      case OfAction(k) => if mu.resource == ActionType { DefinitionChange(m.actions, mu, k); }
      case OfRole(k) => if mu.resource == RoleType { DefinitionChange(m.roles, mu, k); }
      case OfProfile(k) => if mu.resource == ProfileType { DefinitionChange(m.profiles, mu, k); }
      case _ =>
    }
  }

  /** Applying a mutation to the lists is updating the map: at every address the
      outcome depends on the mutation, on what was there before, and for a new
      object on whether the object was known. */
  lemma RefinesMap(m: Manifest, mu: Mutation, a: Address)
    requires Unique(m) && ApplyIn(m, mu).Ok?
    ensures Found(ApplyIn(m, mu).manifest, a)
      == Change(mu, Found(m, OfObject(mu.key)).Some?, a, Found(m, a))
  {
    if mu.operation != Noop {
      OnlyKnownTypes(m, mu);
      hide ApplyIn, Found, Unique, Change;
      if mu.resource == ObjectType || mu.resource == FieldType || mu.resource == ValidationType {
        ObjectsRefine(m, mu, a);
      } else {
        DefinitionsRefine(m, mu, a);
      }
    }
  }

  lemma OnlyKnownTypes(m: Manifest, mu: Mutation)
    requires ApplyIn(m, mu).Ok? && mu.operation != Noop
    ensures (Removes(mu) || Writes(mu)) && !mu.resource.OtherType?
  {
  }

  // ---------------------------------------------------------------------
  // Keys stay unique
  // ---------------------------------------------------------------------

  lemma ObjectsStayUnique(m: Manifest, mu: Mutation)
    requires Unique(m) && mu.resource == ObjectType && (Removes(mu) || Writes(mu)) && ApplyObject(m, mu).Ok?
    ensures ObjectsUnique(ApplyObject(m, mu).manifest.objects) <==> BringsUnique(m, mu)
  {
    var k, after := mu.key, ApplyObject(m, mu).manifest.objects;
    PositionFinds(ObjectKey, m.objects, k);
    if Removes(mu) {
      RemoveDistinct(ObjectKey, m.objects, k);
      KeptMembers(ObjectKey, m.objects, k, |m.objects|);
      assert m.objects[..|m.objects|] == m.objects;
    } else {
      var v := Merged(m, mu.payload.asObject.value);
      ReplaceDistinct(ObjectKey, m.objects, k, v);
      SwappedMembers(ObjectKey, m.objects, k, v, |m.objects|);
      ReplaceFinds(ObjectKey, m.objects, k, v, k);
      FindsKey(ObjectKey, after, k, |after|);
      assert v in after && m.objects[..|m.objects|] == m.objects;
      forall i | 0 <= i < |after| && after[i] != v ensures after[i] in m.objects {}
    }
  }

  lemma WrittenStaysUnique(objects: seq<Object>, p: nat, x: Object)
    requires ObjectsUnique(objects) && p < |objects| && x.key == objects[p].key && MembersDistinct(x)
    ensures ObjectsUnique(objects[p := x])
  {
    WriteDistinct(ObjectKey, objects, p, x);
  }

  lemma MembersStayUnique(m: Manifest, mu: Mutation)
    requires Unique(m) && (mu.resource == FieldType || mu.resource == ValidationType) && (Removes(mu) || Writes(mu))
    requires ApplyIn(m, mu).Ok?
    ensures ObjectsUnique(ApplyIn(m, mu).manifest.objects)
  {
    var (o, f) := if mu.resource == FieldType then FieldAddress(mu) else (ValidationObject(mu), mu.key);
    var p := Position(ObjectKey, m.objects, o, 0);
    var owner := m.objects[p];
    if mu.resource == FieldType {
      if Removes(mu) {
        RemoveDistinct(FieldKey, owner.fields, f);
      } else {
        ReplaceDistinct(FieldKey, owner.fields, f, mu.payload.asField.value);
      }
    } else if Removes(mu) {
      RemoveDistinct(ValidationKey, owner.validations, f);
    } else {
      ReplaceDistinct(ValidationKey, owner.validations, f, mu.payload.asValidation.value);
    }
    WrittenStaysUnique(m.objects, p, ApplyIn(m, mu).manifest.objects[p]);
  }

  /** A mutation keeps keys unique exactly when it does not bring a new object
      whose own fields or validations repeat a key. */
  lemma KeysStayUniqueIff(m: Manifest, mu: Mutation)
    requires Unique(m) && ApplyIn(m, mu).Ok?
    ensures Unique(ApplyIn(m, mu).manifest) <==> BringsUnique(m, mu)
  {
    if mu.operation != Noop {
      match mu.resource {
        case ObjectType => ObjectsStayUnique(m, mu);
        case FieldType => MembersStayUnique(m, mu);
        case ValidationType => MembersStayUnique(m, mu);
        case ActionType => DefinitionChange(m.actions, mu, mu.key);
        case RoleType => DefinitionChange(m.roles, mu, mu.key);
        case ProfileType => DefinitionChange(m.profiles, mu, mu.key);
      }
    }
  }

  lemma {:induction false} EarlierOk(m: Manifest, mus: seq<Mutation>, k: nat, n: nat)
    requires k <= n <= |mus| && ApplyAll(m, mus, n).Ok?
    ensures ApplyAll(m, mus, k).Ok?
  {
    if k < n { EarlierOk(m, mus, k, n - 1); }
  }

  /** Each of the first `n` mutations, applied in turn, brings no new object that
      repeats a key among its own members. */
  ghost predicate BringsUniqueUpTo(m: Manifest, mus: seq<Mutation>, n: nat)
    requires n <= |mus| && ApplyAll(m, mus, n).Ok?
    decreases n
  {
    n == 0 || (EarlierOk(m, mus, n - 1, n);
               BringsUniqueUpTo(m, mus, n - 1) && BringsUnique(ApplyAll(m, mus, n - 1).manifest, mus[n - 1]))
  }

  /** Keys are unique after each of the first `n` mutations. */
  ghost predicate UniqueUpTo(m: Manifest, mus: seq<Mutation>, n: nat)
    requires n <= |mus| && ApplyAll(m, mus, n).Ok?
    decreases n
  {
    Unique(ApplyAll(m, mus, n).manifest) && (n == 0 || (EarlierOk(m, mus, n - 1, n); UniqueUpTo(m, mus, n - 1)))
  }

  /** The smallest failing case: an object with two fields of one key is created in
      an empty manifest. */
  lemma RepeatedFieldArrives(body: string, other: string)
    ensures
      var fields := [Field("f", body), Field("f", other)];
      var m := Manifest([], [], [], []);
      var mu := Mutation(Create, ObjectType, "o", "",
                         Payload(Some(Object("o", "", fields, [])), None, None, None));
      Unique(m) && ApplyIn(m, mu).Ok? && !Unique(ApplyIn(m, mu).manifest)
  {
    var fields := [Field("f", body), Field("f", other)];
    var m := Manifest([], [], [], []);
    var mu := Mutation(Create, ObjectType, "o", "",
                       Payload(Some(Object("o", "", fields, [])), None, None, None));
    assert Found(m, OfObject("o")) == None;
    assert FieldKey(fields[0]) == FieldKey(fields[1]);
    KeysStayUniqueIff(m, mu);
  }

  /** A list of mutations keeps keys unique all along exactly when none of them
      brings a new object that repeats a key among its own members. */
  lemma {:induction false} RunKeepsUniqueIff(m: Manifest, mus: seq<Mutation>, n: nat)
    requires n <= |mus| && Unique(m) && ApplyAll(m, mus, n).Ok?
    ensures UniqueUpTo(m, mus, n) <==> BringsUniqueUpTo(m, mus, n)
  {
    hide Unique, BringsUnique;
    if n > 0 {
      EarlierOk(m, mus, n - 1, n);
      RunKeepsUniqueIff(m, mus, n - 1);
      if UniqueUpTo(m, mus, n - 1) { KeysStayUniqueIff(ApplyAll(m, mus, n - 1).manifest, mus[n - 1]); }
    }
  }

  /** What the map holds at an address after some mutations, told from the map
      alone. `known` is remembered for the object of each mutation. */
  ghost function Changed(m: Manifest, mus: seq<Mutation>, n: nat, a: Address): Option<Resource>
    requires n <= |mus|
  {
    if n == 0 then Found(m, a)
    else Change(mus[n - 1], Changed(m, mus, n - 1, OfObject(mus[n - 1].key)).Some?, a, Changed(m, mus, n - 1, a))
  }

  lemma LastRefines(m: Manifest, mus: seq<Mutation>, n: nat, a: Address)
    requires 0 < n <= |mus| && Unique(m) && ApplyAll(m, mus, n).Ok? && BringsUniqueUpTo(m, mus, n)
    ensures ApplyAll(m, mus, n - 1).Ok? && BringsUniqueUpTo(m, mus, n - 1)
    ensures var before := ApplyAll(m, mus, n - 1).manifest;
      Found(ApplyAll(m, mus, n).manifest, a)
        == Change(mus[n - 1], Found(before, OfObject(mus[n - 1].key)).Some?, a, Found(before, a))
  {
    hide BringsUnique, Found, Change, ApplyIn, Unique;
    EarlierOk(m, mus, n - 1, n);
    RunKeepsUniqueIff(m, mus, n - 1);
    RefinesMap(ApplyAll(m, mus, n - 1).manifest, mus[n - 1], a);
  }

  /** Applying any list of mutations to the lists is updating the map, as long as
      keys stay unique. */
  lemma {:induction false} RunRefinesMap(m: Manifest, mus: seq<Mutation>, n: nat, a: Address)
    requires n <= |mus| && Unique(m) && ApplyAll(m, mus, n).Ok? && BringsUniqueUpTo(m, mus, n)
    ensures Found(ApplyAll(m, mus, n).manifest, a) == Changed(m, mus, n, a)
  {
    if n > 0 {
      hide Unique, BringsUniqueUpTo, Found, Change, ApplyAll;
      LastRefines(m, mus, n, a);
      RunRefinesMap(m, mus, n - 1, a);
      RunRefinesMap(m, mus, n - 1, OfObject(mus[n - 1].key));
    }
  }

  // ---------------------------------------------------------------------
  // Everything else keeps its value and its place
  // ---------------------------------------------------------------------

  /** The manifest without the resource at an address. */
  function Without(m: Manifest, a: Address): Manifest {
    match a
    case OfObject(o) => m.(objects := Remove(ObjectKey, m.objects, o))
    case OfField(o, k) =>
      var p := Position(ObjectKey, m.objects, o, 0);
      if p == |m.objects| then m
      else m.(objects := m.objects[p := m.objects[p].(fields := Remove(FieldKey, m.objects[p].fields, k))])
    case OfValidation(o, k) =>
      var p := Position(ObjectKey, m.objects, o, 0);
      if p == |m.objects| then m
      else
        m.(objects := m.objects[p := m.objects[p].(validations := Remove(ValidationKey, m.objects[p].validations, k))])
    case OfAction(k) => m.(actions := Remove(DefinitionKey, m.actions, k))
    case OfRole(k) => m.(roles := Remove(DefinitionKey, m.roles, k))
    case OfProfile(k) => m.(profiles := Remove(DefinitionKey, m.profiles, k))
  }

  /** The object stays where it was. */
  lemma PlaceStays(objects: seq<Object>, o: string, x: Object)
    requires Position(ObjectKey, objects, o, 0) < |objects| && x.key == o
    ensures var p := Position(ObjectKey, objects, o, 0); Position(ObjectKey, objects[p := x], o, 0) == p
  {
    var p := Position(ObjectKey, objects, o, 0);
    var next := objects[p := x];
    var q := Position(ObjectKey, next, o, 0);
    assert ObjectKey(next[p]) == o;
    assert forall j :: 0 <= j < p ==> ObjectKey(next[j]) == ObjectKey(objects[j]);
  }

  lemma FieldOthers(m: Manifest, mu: Mutation)
    requires mu.resource == FieldType && (Removes(mu) || Writes(mu)) && ApplyField(m, mu).Ok?
    ensures Without(ApplyField(m, mu).manifest, AddressOf(mu).value) == Without(m, AddressOf(mu).value)
  {
    var (o, f) := FieldAddress(mu);
    var p := Position(ObjectKey, m.objects, o, 0);
    var next := ApplyField(m, mu).manifest;
    PlaceStays(m.objects, o, next.objects[p]);
    if Removes(mu) {
      RemoveTwice(FieldKey, m.objects[p].fields, f);
    } else {
      ReplaceKeepsOthers(FieldKey, m.objects[p].fields, f, mu.payload.asField.value);
    }
    assert Without(next, AddressOf(mu).value).objects == Without(m, AddressOf(mu).value).objects;
  }

  lemma ValidationOthers(m: Manifest, mu: Mutation)
    requires mu.resource == ValidationType && (Removes(mu) || Writes(mu)) && ApplyValidation(m, mu).Ok?
    ensures Without(ApplyValidation(m, mu).manifest, AddressOf(mu).value) == Without(m, AddressOf(mu).value)
  {
    var o := ValidationObject(mu);
    var p := Position(ObjectKey, m.objects, o, 0);
    var next := ApplyValidation(m, mu).manifest;
    PlaceStays(m.objects, o, next.objects[p]);
    if Removes(mu) {
      RemoveTwice(ValidationKey, m.objects[p].validations, mu.key);
    } else {
      ReplaceKeepsOthers(ValidationKey, m.objects[p].validations, mu.key, mu.payload.asValidation.value);
    }
    assert Without(next, AddressOf(mu).value).objects == Without(m, AddressOf(mu).value).objects;
  }

  /** A mutation touches nothing but what it addresses: every other resource
      keeps its value and its place in its list. */
  lemma OthersUntouched(m: Manifest, mu: Mutation)
    requires mu.operation != Noop && ApplyIn(m, mu).Ok?
    ensures AddressOf(mu).Some?
    ensures Without(ApplyIn(m, mu).manifest, AddressOf(mu).value) == Without(m, AddressOf(mu).value)
  {
    match mu.resource
    case ObjectType =>
      if Removes(mu) {
        RemoveTwice(ObjectKey, m.objects, mu.key);
      } else {
        ReplaceKeepsOthers(ObjectKey, m.objects, mu.key, Merged(m, mu.payload.asObject.value));
      }
    case FieldType => FieldOthers(m, mu);
    case ValidationType => ValidationOthers(m, mu);
    case ActionType => DefinitionChange(m.actions, mu, mu.key);
    case RoleType => DefinitionChange(m.roles, mu, mu.key);
    case ProfileType => DefinitionChange(m.profiles, mu, mu.key);
  }

  /** Writing an object that is known keeps its fields and validations, in order,
      whatever the payload says about them. */
  lemma UpdateKeepsMembers(m: Manifest, mu: Mutation)
    requires Unique(m) && mu.resource == ObjectType && Writes(mu) && ApplyIn(m, mu).Ok?
    requires At(ObjectKey, m.objects, mu.key).Some?
    ensures mu.payload.asObject.Some?
    ensures var was := At(ObjectKey, m.objects, mu.key).value;
      var now := At(ObjectKey, ApplyIn(m, mu).manifest.objects, mu.key);
      now == Some(mu.payload.asObject.value.(fields := was.fields, validations := was.validations))
  {
    PositionFinds(ObjectKey, m.objects, mu.key);
    ReplaceFinds(ObjectKey, m.objects, mu.key, Merged(m, mu.payload.asObject.value), mu.key);
  }

  // ---------------------------------------------------------------------
  // Unrelated mutations commute
  // ---------------------------------------------------------------------

  /** One address is the other, or an object that the other is a member of. */
  predicate Related(a: Address, b: Address) {
    a == b || (a.OfObject? && Within(b, a.o)) || (b.OfObject? && Within(a, b.o))
  }

  /** What decides, beside the mutation itself, whether it can be applied. */
  predicate Applicable(mu: Mutation, ownerKnown: bool) {
    mu.operation == Noop ||
    ((Removes(mu) || Writes(mu)) && match mu.resource
      case ObjectType => Removes(mu) || (mu.payload.asObject.Some? && mu.payload.asObject.value.key == mu.key)
      case FieldType =>
        ownerKnown
        && (Removes(mu) || (mu.payload.asField.Some? && mu.payload.asField.value.key == FieldAddress(mu).1))
      case ValidationType =>
        ownerKnown && (Removes(mu) || (mu.payload.asValidation.Some? && mu.payload.asValidation.value.key == mu.key
                                       && mu.payload.asValidation.value.objectKey == ValidationObject(mu)))
      case OtherType(_) => false
      case _ => Removes(mu) || (mu.payload.asDefinition.Some? && mu.payload.asDefinition.value.key == mu.key))
  }

  function Owner(mu: Mutation): string {
    match mu.resource
    case FieldType => FieldAddress(mu).0
    case ValidationType => ValidationObject(mu)
    case _ => mu.key
  }

  /** A member can be mutated only in an object that exists; nothing else depends
      on the manifest. */
  lemma AppliesIff(m: Manifest, mu: Mutation)
    ensures ApplyIn(m, mu).Ok? <==> Applicable(mu, Found(m, OfObject(Owner(mu))).Some?)
  {
    PositionFinds(ObjectKey, m.objects, Owner(mu));
  }

  /** The first dot of a text splits it, and a text without a dot does not split. */
  lemma {:induction false} SplitDotMeans(before: string, after: string)
    requires '.' !in before
    ensures SplitDot(before + "." + after) == Some((before, after)) && SplitDot(before) == None
  {
    if before == "" {
      assert (before + "." + after)[1..] == after;
    } else {
      assert (before + "." + after)[1..] == before[1..] + "." + after;
      SplitDotMeans(before[1..], after);
      assert [before[0]] + before[1..] == before;
    }
  }

  /** A field is addressed by the object that the request names, or else by what
      stands before the dot of its key, and by what stands after that dot. */
  lemma FieldsAreAddressed(mu: Mutation, o: string, f: string)
    requires '.' !in o && mu.key == o + "." + f
    ensures FieldAddress(mu) == (if mu.objectKey == "" then o else mu.objectKey, f)
  {
    SplitDotMeans(o, f);
  }

  /** What is found at the address of a mutation once it was applied: nothing after
      an archive or delete, the payload after a create or update. */
  lemma AppliedShows(m: Manifest, mu: Mutation, a: Address)
    requires Unique(m) && ApplyIn(m, mu).Ok? && AddressOf(mu) == Some(a) && mu.operation != Noop
    ensures var after := Found(ApplyIn(m, mu).manifest, a);
      match mu.operation
      case Archive => after == None
      case Delete => after == None
      case _ =>
        && after.Some?
        && match mu.resource
           case ObjectType => forall o :: mu.payload.asObject == Some(o) ==> after == Some(Head(o.body))
           case FieldType => forall f :: mu.payload.asField == Some(f) ==> after == Some(FieldAt(f))
           case ValidationType => forall v :: mu.payload.asValidation == Some(v) ==> after == Some(ValidationAt(v))
           case _ => forall d :: mu.payload.asDefinition == Some(d) ==> after == Some(DefinitionAt(d))
  {
    RefinesMap(m, mu, a);
    AppliesIff(m, mu);
    hide Found, ApplyIn, Unique;
  }

  /** What a payload decodes to, as the type that a mutation is about: the key it
      carries, if it decodes. */
  function PayloadKey(mu: Mutation): Option<string> {
    match mu.resource
    case ObjectType => (match mu.payload.asObject case None => None case Some(o) => Some(o.key))
    case FieldType => (match mu.payload.asField case None => None case Some(f) => Some(f.key))
    case ValidationType => (match mu.payload.asValidation case None => None case Some(v) => Some(v.key))
    case OtherType(_) => None
    case _ => (match mu.payload.asDefinition case None => None case Some(d) => Some(d.key))
  }

  /** Each error says what was wrong. */
  lemma ErrorsTell(m: Manifest, mu: Mutation)
    requires ApplyIn(m, mu).Err?
    ensures mu.operation != Noop
    ensures match ApplyIn(m, mu).error
      case UnsupportedOperation => mu.operation.OtherOperation?
      case UnsupportedType => !mu.operation.OtherOperation? && mu.resource.OtherType?
      case Undecodable => (mu.operation == Create || mu.operation == Update) && PayloadKey(mu) == None
      case KeyMismatch =>
        (mu.operation == Create || mu.operation == Update)
        && PayloadKey(mu) != Some(if mu.resource == FieldType then FieldAddress(mu).1 else mu.key)
      case UnknownObject =>
        (mu.resource == FieldType || mu.resource == ValidationType) && Found(m, OfObject(Owner(mu))) == None
      case ObjectKeyMismatch =>
        mu.resource == ValidationType && mu.payload.asValidation.Some?
        && mu.payload.asValidation.value.objectKey != ValidationObject(mu)
  {
    PositionFinds(ObjectKey, m.objects, Owner(mu));
    hide SplitDot;
  }

  /** A mutation leaves the existence of an unrelated mutation's object alone. */
  lemma OwnerStays(m: Manifest, x: Mutation, y: Mutation)
    requires Unique(m) && ApplyIn(m, x).Ok? && AddressOf(x).Some? && AddressOf(y).Some?
    requires !Related(AddressOf(x).value, AddressOf(y).value)
    requires y.resource == ObjectType || y.resource == FieldType || y.resource == ValidationType
    ensures Found(ApplyIn(m, x).manifest, OfObject(Owner(y))) == Found(m, OfObject(Owner(y)))
  {
    RefinesMap(m, x, OfObject(Owner(y)));
  }

  lemma StillApplies(m: Manifest, x: Mutation, y: Mutation)
    requires Unique(m) && ApplyIn(m, x).Ok? && AddressOf(x).Some? && AddressOf(y).Some?
    requires !Related(AddressOf(x).value, AddressOf(y).value)
    ensures ApplyIn(ApplyIn(m, x).manifest, y).Ok? <==> ApplyIn(m, y).Ok?
  {
    AppliesIff(m, y);
    AppliesIff(ApplyIn(m, x).manifest, y);
    if y.resource == ObjectType || y.resource == FieldType || y.resource == ValidationType { OwnerStays(m, x, y); }
  }

  /** Unrelated changes of one address commute; whether each object was known is
      the same before and after the other change. */
  lemma ChangesCommute(x: Mutation, y: Mutation, knownX: bool, knownY: bool, a: Address, before: Option<Resource>)
    requires AddressOf(x).Some? && AddressOf(y).Some? && !Related(AddressOf(x).value, AddressOf(y).value)
    ensures Change(y, knownY, a, Change(x, knownX, a, before)) == Change(x, knownX, a, Change(y, knownY, a, before))
  {
    hide Brought, MemberOf;
  }

  /** Whether an object is known does not change under an unrelated mutation. */
  lemma KnownStays(x: Mutation, y: Mutation, knownX: bool, before: Option<Resource>)
    requires AddressOf(x).Some? && AddressOf(y).Some? && !Related(AddressOf(x).value, AddressOf(y).value)
    requires y.resource == ObjectType
    ensures Change(x, knownX, OfObject(y.key), before) == before
  {
    hide Brought, MemberOf;
  }

  lemma OnlyObjectsAsk(x: Mutation, known: bool, known': bool, a: Address, before: Option<Resource>)
    requires x.resource != ObjectType || known == known'
    ensures Change(x, known, a, before) == Change(x, known', a, before)
  {
    hide Brought, MemberOf;
  }

  /** What two mutations in turn make of one address. */
  lemma TwoInTurn(m: Manifest, x: Mutation, y: Mutation, a: Address)
    requires Unique(m) && BringsUnique(m, x) && ApplyIn(m, x).Ok? && ApplyIn(ApplyIn(m, x).manifest, y).Ok?
    requires AddressOf(x).Some? && AddressOf(y).Some? && !Related(AddressOf(x).value, AddressOf(y).value)
    ensures Found(ApplyIn(ApplyIn(m, x).manifest, y).manifest, a)
      == Change(y, Found(m, OfObject(y.key)).Some?, a, Change(x, Found(m, OfObject(x.key)).Some?, a, Found(m, a)))
  {
    hide ApplyIn, Found, Unique, BringsUnique, Change, Related, AddressOf;
    var mx := ApplyIn(m, x).manifest;
    var knownX := Found(m, OfObject(x.key)).Some?;
    KeysStayUniqueIff(m, x);
    RefinesMap(m, x, a);
    RefinesMap(mx, y, a);
    RefinesMap(m, x, OfObject(y.key));
    if y.resource == ObjectType { KnownStays(x, y, knownX, Found(m, OfObject(y.key))); }
    OnlyObjectsAsk(y, Found(mx, OfObject(y.key)).Some?, Found(m, OfObject(y.key)).Some?, a, Found(mx, a));
  }

  /** Mutations of unrelated resources commute: either order can be applied when
      the other can, and the manifests they give hold the same resources. */
  lemma UnrelatedCommute(m: Manifest, x: Mutation, y: Mutation, a: Address)
    requires Unique(m) && BringsUnique(m, x) && BringsUnique(m, y)
    requires AddressOf(x).Some? && AddressOf(y).Some? && !Related(AddressOf(x).value, AddressOf(y).value)
    requires ApplyIn(m, x).Ok? && ApplyIn(m, y).Ok?
    ensures ApplyIn(ApplyIn(m, x).manifest, y).Ok? && ApplyIn(ApplyIn(m, y).manifest, x).Ok?
    ensures Found(ApplyIn(ApplyIn(m, x).manifest, y).manifest, a)
      == Found(ApplyIn(ApplyIn(m, y).manifest, x).manifest, a)
  {
    RelatedBothWays(AddressOf(x).value, AddressOf(y).value);
    hide ApplyIn, Found, Unique, BringsUnique, Change, Related, AddressOf;
    StillApplies(m, x, y);
    StillApplies(m, y, x);
    TwoInTurn(m, x, y, a);
    TwoInTurn(m, y, x, a);
    ChangesCommute(x, y, Found(m, OfObject(x.key)).Some?, Found(m, OfObject(y.key)).Some?, a, Found(m, a));
  }

  lemma RelatedBothWays(a: Address, b: Address)
    ensures Related(a, b) <==> Related(b, a)
  {
  }
}
