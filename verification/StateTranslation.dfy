/** How a work order turns a changed source state into the fields of a provider write: the published state mapping is
    evaluated against the fields that would be there (src/modules/integrations/state-mapping.service.ts), and the fields
    it requires are carried over from the source (src/modules/connectors/connector.service.ts). */
module StateTranslation {
  import opened Wrappers

  /** A JSON value. Numbers are opaque. */
  datatype Json = Null | Bool(value: bool) | Number(token: int) | Text(text: string) | List(items: seq<Json>)
                | Record(fields: map<string, Json>)

  type Fields = map<string, Json>

  /** A dotted path, split. Splitting a string always gives at least one segment. */
  type Path = p: seq<string> | p != [] witness [""]

  /** What a member access gives where the value is a list, or a record without such a field of its own: an item, a
      length, an inherited member or nothing. Every result below holds for any of these. */
  type Odd = (Json, string) -> Option<Json>

  // ---- Paths ------------------------------------------------------------------------------------------------------

  /** The value at a path that leads through fields the records have themselves. */
  function OwnAt(value: Json, path: seq<string>): Option<Json>
    decreases |path|
  {
    if path == [] then Some(value)
    else if value.Record? && path[0] in value.fields then OwnAt(value.fields[path[0]], path[1..])
    else None
  }

  /** The white space and line terminators that trimming removes. */
  predicate IsSpace(c: char) {
    var code := c as int;
    9 <= code <= 13 || code in {0x20, 0xA0, 0x1680, 0x2028, 0x2029, 0x202F, 0x205F, 0x3000, 0xFEFF}
    || 0x2000 <= code <= 0x200A
  }

  lemma SpaceIff(c: char)
    ensures IsSpace(c) <==> c as int in {
      0x9, 0xA, 0xB, 0xC, 0xD, 0x20, 0xA0, 0x1680, 0x2000, 0x2001, 0x2002, 0x2003, 0x2004, 0x2005, 0x2006, 0x2007,
      0x2008, 0x2009, 0x200A, 0x2028, 0x2029, 0x202F, 0x205F, 0x3000, 0xFEFF}
  {
  }

  predicate Blank(text: string) {
    forall i | 0 <= i < |text| :: IsSpace(text[i])
  }

  predicate IsValue(value: Json) {
    !value.Null? && (value.Text? ==> !Blank(value.text))
  }

  predicate HasValue(fields: Fields, path: seq<string>) {
    OwnAt(Record(fields), path).Some? && IsValue(OwnAt(Record(fields), path).value)
  }

  /** The walk of hasValue. */
  method FindValue(fields: Fields, path: Path) returns (found: bool)
    ensures found <==> HasValue(fields, path)
    ensures found <==>
      && OwnAt(Record(fields), path).Some? && OwnAt(Record(fields), path).value != Null
      && var value := OwnAt(Record(fields), path).value;
         value.Text? ==> exists i | 0 <= i < |value.text| :: !IsSpace(value.text[i])
  {
    var value := Record(fields);
    var i := 0;
    while i < |path|
      invariant 0 <= i <= |path|
      invariant OwnAt(Record(fields), path) == OwnAt(value, path[i..])
    {
      if !value.Record? || path[i] !in value.fields {
        return false;
      }
      assert path[i..][1..] == path[i + 1..];
      value := value.fields[path[i]];
      i := i + 1;
    }
    assert path[i..] == [];
    return IsValue(value);
  }

  /** One member access of pickPaths. */
  function Member(odd: Odd, value: Option<Json>, segment: string): Option<Json> {
    if value.Some? && (value.value.Record? || value.value.List?) then
      if value.value.Record? && segment in value.value.fields then Some(value.value.fields[segment])
      else odd(value.value, segment)
    else None
  }

  function MemberAt(odd: Odd, value: Option<Json>, path: seq<string>): Option<Json>
    decreases |path|
  {
    if path == [] then value else MemberAt(odd, Member(odd, value, path[0]), path[1..])
  }

  lemma {:induction false} OwnIsMember(odd: Odd, value: Json, path: seq<string>)
    requires OwnAt(value, path).Some?
    ensures MemberAt(odd, Some(value), path) == OwnAt(value, path)
    decreases |path|
  {
    if path != [] {
      OwnIsMember(odd, value.fields[path[0]], path[1..]);
    }
  }

  /** Assigning to this member of a record that does not have it as a field of its own makes no field. */
  const PROTO := "__proto__"

  /** The picked object below a cursor after `value` was stored at `path`: records on the way are kept, missing and
      scalar members become new records, and a list stays as it is. */
  function Put(node: Option<Json>, path: seq<string>, value: Json): Json
    decreases |path|
  {
    if path == [] then value
    else if node.Some? && node.value.List? then node.value
    else
      var fields := if node.Some? && node.value.Record? then node.value.fields else map[];
      if path[0] == PROTO && PROTO !in fields then Record(fields)
      else Record(fields[path[0] := Put(FieldOf(fields, path[0]), path[1..], value)])
  }

  function FieldOf(fields: Fields, key: string): Option<Json> {
    if key in fields then Some(fields[key]) else None
  }

  function PutPath(picked: Fields, path: Path, value: Json): Fields {
    if path[0] == PROTO && PROTO !in picked then picked
    else picked[path[0] := Put(FieldOf(picked, path[0]), path[1..], value)]
  }

  /** No segment is that member. */
  predicate Plain(path: seq<string>) {
    PROTO !in path
  }

  /** The fields picked for the first paths of a list. */
  function Picked(odd: Odd, source: Fields, paths: seq<Path>): Fields {
    if paths == [] then map[]
    else
      var picked := Picked(odd, source, paths[..|paths| - 1]);
      var path := paths[|paths| - 1];
      var value := MemberAt(odd, Some(Record(source)), path);
      if value.None? then picked else PutPath(picked, path, value.value)
  }

  method PickPaths(odd: Odd, source: Fields, paths: seq<Path>) returns (picked: Fields)
    ensures picked == Picked(odd, source, paths)
  {
    picked := map[];
    for i := 0 to |paths|
      invariant picked == Picked(odd, source, paths[..i])
    {
      var value := Some(Record(source));
      var k := 0;
      while k < |paths[i]|
        invariant 0 <= k <= |paths[i]|
        invariant MemberAt(odd, Some(Record(source)), paths[i]) == MemberAt(odd, value, paths[i][k..])
      {
        assert paths[i][k..][1..] == paths[i][k + 1..];
        value := Member(odd, value, paths[i][k]);
        k := k + 1;
      }
      assert paths[i][k..] == [];
      assert paths[..i + 1][..i] == paths[..i];
      if value.Some? {
        picked := PutPath(picked, paths[i], value.value);
      }
    }
    assert paths[..|paths|] == paths;
  }

  // ---- Picking is faithful ----------------------------------------------------------------------------------------

  /** `part` shows nothing that `whole` does not: where it is a record so is `whole`, elsewhere they are equal. */
  ghost predicate PartOf(part: Json, whole: Json) {
    forall q: seq<string> | OwnAt(part, q).Some? ::
      && OwnAt(whole, q).Some?
      && (OwnAt(part, q).value.Record? ==> OwnAt(whole, q).value.Record?)
      && (!OwnAt(part, q).value.Record? ==> OwnAt(part, q) == OwnAt(whole, q))
  }

  lemma PartOfField(part: Json, whole: Json, key: string)
    requires PartOf(part, whole) && part.Record? && key in part.fields
    ensures whole.Record? && key in whole.fields && PartOf(part.fields[key], whole.fields[key])
  {
    assert OwnAt(part, []).Some?;
    assert OwnAt(part, [key]) == Some(part.fields[key]) by { assert [key][1..] == []; }
    assert OwnAt(whole, [key]).Some?;
    forall q: seq<string> | OwnAt(part.fields[key], q).Some?
      ensures OwnAt(whole.fields[key], q) == OwnAt(whole, [key] + q)
      ensures OwnAt(part.fields[key], q) == OwnAt(part, [key] + q)
    {
      assert ([key] + q)[1..] == q;
    }
  }

  lemma {:induction false} PutBackIsSame(whole: Json, path: seq<string>)
    requires OwnAt(whole, path).Some?
    ensures Put(Some(whole), path, OwnAt(whole, path).value) == whole
    decreases |path|
  {
    if path != [] {
      PutBackIsSame(whole.fields[path[0]], path[1..]);
    }
  }

  /** Storing what the source has at a path keeps the picked part a part, puts the value there, and leaves every value
      picked before as it was. */
  lemma {:induction false} PutIsFaithful(node: Option<Json>, whole: Json, path: seq<string>, q: seq<string>)
    requires node.Some? ==> PartOf(node.value, whole)
    requires OwnAt(whole, path).Some? && Plain(path)
    ensures var after := Put(node, path, OwnAt(whole, path).value);
      && OwnAt(after, path) == OwnAt(whole, path)
      && (node.Some? && OwnAt(node.value, q).Some? && OwnAt(node.value, q) == OwnAt(whole, q)
          ==> OwnAt(after, q) == OwnAt(whole, q))
      && (OwnAt(after, q).Some? ==>
            && OwnAt(whole, q).Some?
            && (OwnAt(after, q).value.Record? ==> OwnAt(whole, q).value.Record?)
            && (!OwnAt(after, q).value.Record? ==> OwnAt(after, q) == OwnAt(whole, q)))
    decreases |path|
  {
    if path != [] {
      if node.Some? {
        assert OwnAt(node.value, []) == Some(node.value);
        assert node.value.Record?;
      }
      var key := path[0];
      var fields := if node.Some? then node.value.fields else map[];
      if key in fields {
        PartOfField(node.value, whole, key);
      }
      PutIsFaithful(FieldOf(fields, key), whole.fields[key], path[1..], if q == [] then [] else q[1..]);
      if node == Some(whole) {
        PutBackIsSame(whole, path);
      }
      if node.Some? && q != [] && q[0] in fields && q[0] != key {
        PartOfField(node.value, whole, q[0]);
        assert OwnAt(node.value.fields[q[0]], q[1..]) == OwnAt(node.value, q);
      }
    }
  }

  /** Below one top-level key, what was picked is part of the source. */
  ghost predicate PartUnder(picked: Fields, source: Fields, key: string) {
    key in picked ==> key in source && PartOf(picked[key], source[key])
  }

  lemma PutPathIsFaithful(picked: Fields, source: Fields, path: Path, value: Json, key: string)
    requires PartUnder(picked, source, key) && Plain(path)
    requires path[0] == key ==> OwnAt(Record(source), path) == Some(value)
    ensures PartUnder(PutPath(picked, path, value), source, key)
    ensures path[0] == key ==> OwnAt(Record(PutPath(picked, path, value)), path) == Some(value)
  {
    if path[0] == key {
      var node := FieldOf(picked, key);
      forall q: seq<string> | OwnAt(Put(node, path[1..], value), q).Some?
        ensures OwnAt(source[key], q).Some?
        ensures OwnAt(Put(node, path[1..], value), q).value.Record? ==> OwnAt(source[key], q).value.Record?
        ensures !OwnAt(Put(node, path[1..], value), q).value.Record?
                ==> OwnAt(Put(node, path[1..], value), q) == OwnAt(source[key], q)
      {
        PutIsFaithful(node, source[key], path[1..], q);
      }
      PutIsFaithful(node, source[key], path[1..], path[1..]);
    }
  }

  lemma PutPathKeeps(picked: Fields, source: Fields, path: Path, value: Json, other: Path)
    requires PartUnder(picked, source, other[0]) && Plain(path)
    requires path[0] == other[0] ==> OwnAt(Record(source), path) == Some(value)
    requires OwnAt(Record(picked), other).Some? && OwnAt(Record(picked), other) == OwnAt(Record(source), other)
    ensures OwnAt(Record(PutPath(picked, path, value)), other) == OwnAt(Record(source), other)
  {
    if path[0] == other[0] {
      PutIsFaithful(FieldOf(picked, path[0]), source[path[0]], path[1..], other[1..]);
    }
  }

  /** Every path below `key` that the source has a value at is picked with that value, whatever the other paths are and
      however they overlap. */
  lemma {:induction false} PickingIsFaithful(odd: Odd, source: Fields, paths: seq<Path>, key: string)
    requires forall i | 0 <= i < |paths| :: Plain(paths[i])
    requires forall i | 0 <= i < |paths| && paths[i][0] == key :: OwnAt(Record(source), paths[i]).Some?
    ensures PartUnder(Picked(odd, source, paths), source, key)
    ensures forall i | 0 <= i < |paths| && paths[i][0] == key ::
      OwnAt(Record(Picked(odd, source, paths)), paths[i]) == OwnAt(Record(source), paths[i])
    decreases |paths|
  {
    if paths != [] {
      var n := |paths| - 1;
      var path := paths[n];
      PickingIsFaithful(odd, source, paths[..n], key);
      var picked := Picked(odd, source, paths[..n]);
      var value := MemberAt(odd, Some(Record(source)), path);
      if path[0] == key {
        OwnIsMember(odd, Record(source), path);
      }
      if value.Some? {
        PutPathIsFaithful(picked, source, path, value.value, key);
        forall i | 0 <= i < n && paths[i][0] == key
          ensures OwnAt(Record(PutPath(picked, path, value.value)), paths[i]) == OwnAt(Record(source), paths[i])
        {
          assert paths[..n][i] == paths[i];
          PutPathKeeps(picked, source, path, value.value, paths[i]);
        }
      }
    }
  }

  // ---- Evaluating the mapping -------------------------------------------------------------------------------------

  datatype Endpoint = Endpoint(system: string, entityType: string)

  datatype Direction = SourceToTarget | TargetToSource

  datatype Rule = Rule(direction: Direction, fromState: string, toState: string, required: seq<Path>,
                       allowedFrom: seq<string>)

  datatype Mapping = Mapping(source: Endpoint, target: Endpoint, rules: seq<Rule>)

  datatype Hold = MappingNotFound | UnmappedState | MissingRequiredFields(paths: seq<Path>) | InvalidTargetTransition
                | FieldMappingHeld

  datatype Decision = Ready(rule: Rule) | Held(hold: Hold)

  /** Whether two state names are the same; the collation is a parameter. */
  type Same = (string, string) -> bool

  function DirectionFor(mapping: Mapping, source: Endpoint, target: Endpoint): Option<Direction> {
    if mapping.source == source && mapping.target == target then Some(SourceToTarget)
    else if mapping.target == source && mapping.source == target then Some(TargetToSource)
    else None
  }

  /** A published mapping is read in the direction of the change, and no other mapping is read at all. */
  lemma DirectionIff(mapping: Mapping, source: Endpoint, target: Endpoint)
    ensures DirectionFor(mapping, source, target) == Some(SourceToTarget)
            <==> source == mapping.source && target == mapping.target
    ensures DirectionFor(mapping, source, target) == Some(TargetToSource)
            <==> source == mapping.target && target == mapping.source && source != target
    ensures DirectionFor(mapping, source, target).None?
            <==> !(source == mapping.source && target == mapping.target)
                 && !(source == mapping.target && target == mapping.source)
  {
  }

  predicate Matches(same: Same, rule: Rule, direction: Direction, state: string) {
    rule.direction == direction && same(rule.fromState, state)
  }

  function FirstRule(same: Same, rules: seq<Rule>, direction: Direction, state: string): Option<Rule> {
    if rules == [] then None
    else if Matches(same, rules[0], direction, state) then Some(rules[0])
    else FirstRule(same, rules[1..], direction, state)
  }

  function Missing(fields: Fields, paths: seq<Path>): seq<Path> {
    if paths == [] then []
    else (if HasValue(fields, paths[0]) then [] else [paths[0]]) + Missing(fields, paths[1..])
  }

  predicate TransitionAllowed(same: Same, rule: Rule, current: Option<string>) {
    rule.allowedFrom == []
    || (current.Some? && current.value != ""
        && exists i | 0 <= i < |rule.allowedFrom| :: same(rule.allowedFrom[i], current.value))
  }

  /** The decision on a state change; an error where the published mapping does not join the two endpoints. */
  function Evaluate(same: Same, mapping: Option<Mapping>, source: Endpoint, target: Endpoint, state: string,
                    current: Option<string>, fields: Fields): Result<Decision, string>
  {
    if mapping.None? then Ok(Held(MappingNotFound))
    else
      var direction := DirectionFor(mapping.value, source, target);
      if direction.None? then Err("Published mapping does not match the correlated record direction")
      else
        var rule := FirstRule(same, mapping.value.rules, direction.value, state);
        if rule.None? then Ok(Held(UnmappedState))
        else if Missing(fields, rule.value.required) != [] then
          Ok(Held(MissingRequiredFields(Missing(fields, rule.value.required))))
        else if !TransitionAllowed(same, rule.value, current) then Ok(Held(InvalidTargetTransition))
        else Ok(Ready(rule.value))
  }

  lemma {:induction false} NothingMissingIff(fields: Fields, paths: seq<Path>)
    ensures Missing(fields, paths) == [] <==> forall i | 0 <= i < |paths| :: HasValue(fields, paths[i])
  {
    if paths != [] {
      NothingMissingIff(fields, paths[1..]);
      if Missing(fields, paths) == [] {
        forall i | 0 <= i < |paths| ensures HasValue(fields, paths[i]) {
          if i > 0 { assert paths[1..][i - 1] == paths[i]; }
        }
      }
    }
  }

  ghost predicate IsFirst(same: Same, rules: seq<Rule>, direction: Direction, state: string, i: nat) {
    && i < |rules| && Matches(same, rules[i], direction, state)
    && forall j | 0 <= j < i :: !Matches(same, rules[j], direction, state)
  }

  /** The rule that decides is the first that matches, and there is none exactly when no rule matches. */
  lemma {:induction false} FirstRuleIsFirst(same: Same, rules: seq<Rule>, direction: Direction, state: string)
    ensures var rule := FirstRule(same, rules, direction, state);
      && (rule.None? <==> forall i | 0 <= i < |rules| :: !Matches(same, rules[i], direction, state))
      && (rule.Some? ==> exists i: nat :: IsFirst(same, rules, direction, state, i) && rules[i] == rule.value)
  {
    if rules != [] {
      var rest := rules[1..];
      FirstRuleIsFirst(same, rest, direction, state);
      var rule := FirstRule(same, rules, direction, state);
      if Matches(same, rules[0], direction, state) {
        assert IsFirst(same, rules, direction, state, 0);
      } else if rule.Some? {
        var i: nat :| IsFirst(same, rest, direction, state, i) && rest[i] == rule.value;
        forall j | 0 <= j < i + 1 ensures !Matches(same, rules[j], direction, state) {
          if j > 0 { assert rest[j - 1] == rules[j]; }
        }
        assert IsFirst(same, rules, direction, state, i + 1);
      } else {
        forall i | 0 <= i < |rules| ensures !Matches(same, rules[i], direction, state) {
          if i > 0 { assert rest[i - 1] == rules[i]; }
        }
      }
    }
  }

  /** The deciding rule: the first one of the direction whose state is the changed one. */
  lemma DecidingRule(same: Same, rules: seq<Rule>, direction: Direction, state: string)
    ensures match FirstRule(same, rules, direction, state)
      case None => forall i | 0 <= i < |rules| && rules[i].direction == direction :: !same(rules[i].fromState, state)
      case Some(rule) => exists i | 0 <= i < |rules| ::
        && rules[i] == rule && rule.direction == direction && same(rule.fromState, state)
        && forall j | 0 <= j < i && rules[j].direction == direction :: !same(rules[j].fromState, state)
  {
    FirstRuleIsFirst(same, rules, direction, state);
    var rule := FirstRule(same, rules, direction, state);
    if rule.Some? {
      var i: nat :| IsFirst(same, rules, direction, state, i) && rules[i] == rule.value;
      assert forall j | 0 <= j < i :: !Matches(same, rules[j], direction, state);
    }
  }

  // ---- The fields of the write ------------------------------------------------------------------------------------

  /** What the field mapping made of the source fields, if there is one. */
  datatype FieldTranslation = Translated(fields: Fields) | HeldBack

  datatype Plan = Write(state: Option<string>, fields: Fields) | Hold(hold: Hold)

  /** What would be at the target: the source fields, overlaid by what a field mapping provides. */
  function TargetFields(source: Fields, translation: Option<FieldTranslation>): Fields {
    source + if translation.Some? && translation.value.Translated? then translation.value.fields else map[]
  }

  /** The part of executeWorkOrder that translates: the state first, if it changed, then the field mapping on top. */
  function PlanWrite(odd: Odd, existing: Fields, state: Option<string>, source: Fields,
                     decision: Option<Decision>, translation: Option<FieldTranslation>): Plan
  {
    if decision.Some? && decision.value.Held? then Hold(decision.value.hold)
    else if translation.Some? && translation.value.HeldBack? then Hold(FieldMappingHeld)
    else
      var carried := if decision.Some? then existing + Picked(odd, source, decision.value.rule.required) else existing;
      var fields := if translation.Some? then carried + translation.value.fields else carried;
      Write(if decision.Some? then Some(decision.value.rule.toState) else state, fields)
  }

  /** The value a write carries at a required path is the one the mapping was evaluated with. */
  lemma WriteCarries(odd: Odd, existing: Fields, source: Fields, translated: Fields, paths: seq<Path>, i: nat)
    requires i < |paths| && forall j | 0 <= j < |paths| :: Plain(paths[j])
    requires forall j | 0 <= j < |paths| :: OwnAt(Record(source + translated), paths[j]).Some?
    ensures OwnAt(Record(existing + Picked(odd, source, paths) + translated), paths[i])
         == OwnAt(Record(source + translated), paths[i])
  {
    var key := paths[i][0];
    if key !in translated {
      forall j | 0 <= j < |paths| && paths[j][0] == key ensures OwnAt(Record(source), paths[j]).Some? {
        assert OwnAt(Record(source + translated), paths[j]) == OwnAt(Record(source), paths[j]);
      }
      PickingIsFaithful(odd, source, paths, key);
    }
  }

  /** Whenever a changed state is translated as ready and no required path goes through `__proto__`, the fields sent in
      the provider write hold a non-blank value at every required target path: for any nested source fields, any
      overlapping paths, any field mapping output and whatever the order held before. They hold the very value the
      decision was made on. */
  lemma RequiredFieldsAreSent(odd: Odd, same: Same, mapping: Option<Mapping>, sourceEnd: Endpoint, targetEnd: Endpoint,
                              state: string, current: Option<string>, existing: Fields, source: Fields,
                              translation: Option<FieldTranslation>, before: Option<string>)
    requires var target := TargetFields(source, translation);
      var decision := Evaluate(same, mapping, sourceEnd, targetEnd, state, current, target);
      decision.Ok? && PlanWrite(odd, existing, before, source, Some(decision.value), translation).Write?
    ensures var target := TargetFields(source, translation);
      var decision := Evaluate(same, mapping, sourceEnd, targetEnd, state, current, target).value;
      var plan := PlanWrite(odd, existing, before, source, Some(decision), translation);
      && decision.Ready? && plan.state == Some(decision.rule.toState)
      && ((forall i | 0 <= i < |decision.rule.required| :: Plain(decision.rule.required[i])) ==>
            forall i | 0 <= i < |decision.rule.required| ::
              && HasValue(plan.fields, decision.rule.required[i])
              && OwnAt(Record(plan.fields), decision.rule.required[i])
                 == OwnAt(Record(target), decision.rule.required[i]))
  {
    var target := TargetFields(source, translation);
    var decision := Evaluate(same, mapping, sourceEnd, targetEnd, state, current, target).value;
    var plan := PlanWrite(odd, existing, before, source, Some(decision), translation);
    var paths := decision.rule.required;
    var translated := if translation.Some? then translation.value.fields else map[];
    NothingMissingIff(target, paths);
    assert plan.fields == existing + Picked(odd, source, paths) + translated;
    forall i | 0 <= i < |paths| && forall j | 0 <= j < |paths| :: Plain(paths[j])
      ensures HasValue(plan.fields, paths[i])
      ensures OwnAt(Record(plan.fields), paths[i]) == OwnAt(Record(target), paths[i])
    {
      forall j | 0 <= j < |paths| ensures OwnAt(Record(source + translated), paths[j]).Some? {
        assert HasValue(target, paths[j]);
      }
      WriteCarries(odd, existing, source, translated, paths, i);
    }
  }

  lemma {:induction false} PutReachesIff(path: seq<string>, value: Json)
    ensures OwnAt(Put(None, path, value), path) == Some(value) <==> Plain(path)
    decreases |path|
  {
    if path != [] {
      assert path == [path[0]] + path[1..];
      PutReachesIff(path[1..], value);
    }
  }

  /** A single required path that the source has a value at is picked exactly if it does not go through `__proto__`. */
  lemma OnePathIsPickedIff(odd: Odd, source: Fields, path: Path)
    requires OwnAt(Record(source), path).Some?
    ensures OwnAt(Record(Picked(odd, source, [path])), path) == OwnAt(Record(source), path) <==> Plain(path)
  {
    OwnIsMember(odd, Record(source), path);
    assert [path][..0] == [];
    PutReachesIff(path[1..], OwnAt(Record(source), path).value);
    assert path == [path[0]] + path[1..];
  }

  /** A rule that requires the field `__proto__`, and a source record that has it: the change is ready, and the write
      lacks the field. */
  lemma ProtoIsNotSent(odd: Odd, same: Same, a: Endpoint, b: Endpoint, state: string, text: string)
    requires same(state, state) && !Blank(text)
    ensures var rule := Rule(SourceToTarget, state, state, [[PROTO]], []);
      var source := map[PROTO := Text(text)];
      var decision := Evaluate(same, Some(Mapping(a, b, [rule])), a, b, state, None, source);
      && decision == Ok(Ready(rule))
      && !HasValue(PlanWrite(odd, map[], None, source, Some(Ready(rule)), None).fields, [PROTO])
  {
    var path: Path := [PROTO];
    var source := map[PROTO := Text(text)];
    assert path[1..] == [];
    assert OwnAt(Record(source), path) == Some(Text(text));
    var rule := Rule(SourceToTarget, state, state, [path], []);
    assert Missing(source, [path]) == [] by {
      assert [path][1..] == [];
    }
    OnePathIsPickedIff(odd, source, path);
    assert [path][..0] == [];
  }

  /** And the change is held back for its fields exactly when one of them would be missing. */
  lemma HeldForFieldsIff(same: Same, mapping: Mapping, source: Endpoint, target: Endpoint, direction: Direction,
                         state: string, current: Option<string>, fields: Fields, rule: Rule)
    requires DirectionFor(mapping, source, target) == Some(direction)
    requires FirstRule(same, mapping.rules, direction, state) == Some(rule)
    ensures var decision := Evaluate(same, Some(mapping), source, target, state, current, fields);
      && decision.Ok?
      && (decision.value.Held? && decision.value.hold.MissingRequiredFields?
          <==> exists i | 0 <= i < |rule.required| :: !HasValue(fields, rule.required[i]))
      && (decision.value.Ready? <==> (forall i | 0 <= i < |rule.required| :: HasValue(fields, rule.required[i]))
                                     && (rule.allowedFrom == []
                                         || (current.Some? && current.value != ""
                                             && exists from | from in rule.allowedFrom :: same(from, current.value))))
  {
    NothingMissingIff(fields, rule.required);
  }
}
