/**
 * Query understanding and query rebuild of rag_pipeline.py: the
 * parse-or-empty fallback of `extract_structured_query` and the
 * deterministic `build_refined_query`.
 */
module RagPipeline {
  import opened Wrappers
  import opened Text

  /** A JSON value as `json.loads` returns it; object entries keep their order. */
  datatype Json =
    | JNull
    | JBool(b: bool)
    | JNum(n: real)
    | JStr(s: string)
    | JArr(items: seq<Json>)
    | JObj(entries: seq<(string, Json)>)

  /** The structured intent: the top-level JSON object produced by the model. */
  type Intent = map<string, Json>

  /** `str.join` raises TypeError on an item that is not a string, `for` on a value that is not iterable. */
  datatype PipelineError = TypeError

  const JobRole := "job_role"
  const Skills := "skills"
  const JobLevel := "job_level"
  const RemoteTesting := "remote_testing_required"
  const Preferences := "assessment_preferences"

  /** The phrase added when remote testing is required. */
  const RemotePhrase := "remote testing"

  /**
   * `extract_structured_query` after the model call: the parsed object, or
   * the empty intent when the text was not valid JSON.
   */
  function StructuredIntent(parsed: Option<Intent>): (intent: Intent)
    ensures parsed.None? ==> intent == map[]
    ensures parsed.Some? ==> intent == parsed.value
  {
    parsed.GetOr(map[])
  }

  /** `structured_data.get(key)`: absent keys read as None. */
  function Get(data: Intent, key: string): Json {
    if key in data then data[key] else JNull
  }

  /** Python truthiness of a JSON value. */
  predicate Truthy(v: Json) {
    match v
    case JNull => false
    case JBool(b) => b
    case JNum(n) => n != 0.0
    case JStr(s) => s != ""
    case JArr(items) => items != []
    case JObj(entries) => entries != []
  }

  /** What `for x in v` yields: characters of a string, items of a list, keys of an object. */
  function Iterate(v: Json): (r: Option<seq<Json>>)
    ensures v.JArr? ==> r == Some(v.items)
    ensures r.Some? <==> (v.JStr? || v.JArr? || v.JObj?)
  {
    match v
    case JStr(s) => Some(seq(|s|, i requires 0 <= i < |s| => JStr([s[i]])))
    case JArr(items) => Some(items)
    case JObj(entries) => Some(seq(|entries|, i requires 0 <= i < |entries| => JStr(entries[i].0)))
    case _ => None
  }

  /** A list of strings as JSON strings. */
  function Wrap(ss: seq<string>): (items: seq<Json>)
    ensures |items| == |ss| && forall i | 0 <= i < |ss| :: items[i] == JStr(ss[i])
  {
    seq(|ss|, i requires 0 <= i < |ss| => JStr(ss[i]))
  }

  /** The strings of a list whose items are all strings; None when `join` would raise. */
  function AsStrings(items: seq<Json>): (r: Option<seq<string>>)
    ensures r.Some? <==> forall i | 0 <= i < |items| :: items[i].JStr?
    ensures r.Some? ==> |r.value| == |items| && forall i | 0 <= i < |items| :: items[i] == JStr(r.value[i])
  {
    if items == [] then Some([])
    else if !items[0].JStr? then None
    else match AsStrings(items[1..])
      case None => None
      case Some(rest) => Some([items[0].s] + rest)
  }

  /** `sep.join(v)`, which raises when `v` is not iterable or yields a non-string. */
  function JoinValue(sep: string, v: Json): Result<string, PipelineError> {
    match Iterate(v)
    case None => Err(TypeError)
    case Some(items) =>
      match AsStrings(items)
      case None => Err(TypeError)
      case Some(ss) => Ok(Join(sep, ss))
  }

  /** Parts contributed by one field taken as is when truthy. */
  function FieldPart(data: Intent, key: string): seq<Json> {
    if Truthy(Get(data, key)) then [Get(data, key)] else []
  }

  /** The skills part: the skills joined with ", " when truthy. */
  function SkillsPart(data: Intent): Result<seq<Json>, PipelineError> {
    var skills := Get(data, Skills);
    if !Truthy(skills) then Ok([])
    else match JoinValue(", ", skills)
      case Err(e) => Err(e)
      case Ok(s) => Ok([JStr(s)])
  }

  /** The remote part: the fixed phrase when the field is exactly the string "Yes". */
  function RemotePart(data: Intent): seq<Json> {
    if Get(data, RemoteTesting) == JStr("Yes") then [JStr(RemotePhrase)] else []
  }

  /** The `parts` list of `build_refined_query`: role, skills, level, remote phrase, in that order. */
  function Parts(data: Intent): Result<seq<Json>, PipelineError> {
    match SkillsPart(data)
    case Err(e) => Err(e)
    case Ok(skills) => Ok(FieldPart(data, JobRole) + skills + FieldPart(data, JobLevel) + RemotePart(data))
  }

  /** `" ".join(parts)`, raising when a part is not a string. */
  function Render(parts: Result<seq<Json>, PipelineError>): Result<string, PipelineError> {
    match parts
    case Err(e) => Err(e)
    case Ok(ps) =>
      match AsStrings(ps)
      case None => Err(TypeError)
      case Some(ss) => Ok(Join(" ", ss))
  }

  /** `build_refined_query`. */
  function RefinedQuery(data: Intent): (r: Result<string, PipelineError>)
    ensures r.Err? ==> r == Err(TypeError)
    ensures SkillsPart(data).Err? ==> r == Err(TypeError)
  {
    Render(Parts(data))
  }

  /** An intent whose fields have the types the extraction prompt asks for. */
  datatype TypedIntent = TypedIntent(
    jobRole: Option<string>,
    jobLevel: Option<string>,
    skills: Option<seq<string>>,
    remoteTestingRequired: Option<string>,
    preferences: Option<string>)

  /**
   * The JSON object a typed intent is written as; absent fields are left out,
   * so `get` reads each given field back and an absent one as None.
   */
  function ToJson(t: TypedIntent): (data: Intent)
    ensures Get(data, JobRole) == if t.jobRole.Some? then JStr(t.jobRole.value) else JNull
    ensures Get(data, JobLevel) == if t.jobLevel.Some? then JStr(t.jobLevel.value) else JNull
    ensures Get(data, Skills) == if t.skills.Some? then JArr(Wrap(t.skills.value)) else JNull
    ensures Get(data, RemoteTesting)
         == if t.remoteTestingRequired.Some? then JStr(t.remoteTestingRequired.value) else JNull
  {
    var withRole := if t.jobRole.Some? then map[JobRole := JStr(t.jobRole.value)] else map[];
    var withLevel := if t.jobLevel.Some? then withRole[JobLevel := JStr(t.jobLevel.value)] else withRole;
    var withSkills := if t.skills.Some? then withLevel[Skills := JArr(Wrap(t.skills.value))] else withLevel;
    var withRemote := if t.remoteTestingRequired.Some? then withSkills[RemoteTesting := JStr(t.remoteTestingRequired.value)] else withSkills;
    if t.preferences.Some? then withRemote[Preferences := JStr(t.preferences.value)] else withRemote
  }

  /**
   * The refined query of a typed intent, stated directly: the non-empty
   * role, the non-empty skills list joined by ", ", the non-empty level and
   * "remote testing" when the requirement is "Yes", joined by single spaces.
   */
  function ExpectedQuery(t: TypedIntent): string {
    var role := if t.jobRole.Some? && t.jobRole.value != "" then [t.jobRole.value] else [];
    var skills := if t.skills.Some? && t.skills.value != [] then [Join(", ", t.skills.value)] else [];
    var level := if t.jobLevel.Some? && t.jobLevel.value != "" then [t.jobLevel.value] else [];
    var remote := if t.remoteTestingRequired == Some("Yes") then [RemotePhrase] else [];
    Join(" ", role + skills + level + remote)
  }

  /** A typed intent never makes the rebuild raise and yields exactly the expected query. */
  lemma TypedIntentQuery(t: TypedIntent)
    ensures RefinedQuery(ToJson(t)) == Ok(ExpectedQuery(t))
  {
    var data := ToJson(t);
    var role := if t.jobRole.Some? && t.jobRole.value != "" then [t.jobRole.value] else [];
    var skills := if t.skills.Some? && t.skills.value != [] then [Join(", ", t.skills.value)] else [];
    var level := if t.jobLevel.Some? && t.jobLevel.value != "" then [t.jobLevel.value] else [];
    var remote := if t.remoteTestingRequired == Some("Yes") then [RemotePhrase] else [];
    assert FieldPart(data, JobRole) == Wrap(role);
    assert FieldPart(data, JobLevel) == Wrap(level);
    assert RemotePart(data) == Wrap(remote);
    if t.skills.Some? && t.skills.value != [] {
      AsStringsWrap(t.skills.value);
      assert JoinValue(", ", JArr(Wrap(t.skills.value))) == Ok(Join(", ", t.skills.value));
      assert Wrap(skills) == [JStr(Join(", ", t.skills.value))];
    } else {
      assert Wrap(skills) == [];
    }
    assert SkillsPart(data) == Ok(Wrap(skills));
    WrapAppend(role, skills);
    WrapAppend(role + skills, level);
    WrapAppend(role + skills + level, remote);
    assert Parts(data) == Ok(Wrap(role + skills + level + remote));
    AsStringsWrap(role + skills + level + remote);
  }

  /** Wrapping strings as JSON strings and reading them back is the identity. */
  lemma {:induction false} AsStringsWrap(ss: seq<string>)
    ensures AsStrings(Wrap(ss)) == Some(ss)
  {
    if ss != [] {
      assert Wrap(ss)[1..] == Wrap(ss[1..]);
      AsStringsWrap(ss[1..]);
      assert ss == [ss[0]] + ss[1..];
    }
  }

  /** Wrapping distributes over concatenation. */
  lemma WrapAppend(a: seq<string>, b: seq<string>)
    ensures Wrap(a + b) == Wrap(a) + Wrap(b)
  {
  }

  /** Unparseable model output degrades to the empty intent, whose refined query is "". */
  lemma FallbackGivesEmptyQuery()
    ensures StructuredIntent(None) == map[]
    ensures RefinedQuery(StructuredIntent(None)) == Ok("")
  {
  }

  /** The preferences field, or any other key outside the four read ones, never changes the query. */
  lemma OtherKeysIgnored(data: Intent, key: string, v: Json)
    requires key != JobRole && key != Skills && key != JobLevel && key != RemoteTesting
    ensures RefinedQuery(data[key := v]) == RefinedQuery(data)
  {
  }

  /** A remote-testing value other than exactly "Yes" contributes nothing. */
  lemma RemoteNotYesIgnored(data: Intent, v: Json)
    requires v != JStr("Yes")
    ensures Parts(data[RemoteTesting := v]) == Parts(data - {RemoteTesting})
    ensures RefinedQuery(data[RemoteTesting := v]) == RefinedQuery(data - {RemoteTesting})
  {
  }

  /** "Yes" appends the phrase "remote testing" as the last part. */
  lemma RemoteYesAppends(data: Intent)
    ensures var without := Parts(data - {RemoteTesting});
      Parts(data[RemoteTesting := JStr("Yes")])
        == if without.Err? then without else Ok(without.value + [JStr(RemotePhrase)])
  {
    var with, without := data[RemoteTesting := JStr("Yes")], data - {RemoteTesting};
    SameFields(with, without);
    assert RemotePart(with) == [JStr(RemotePhrase)];
    assert RemotePart(without) == [];
    if SkillsPart(without).Ok? {
      var front := FieldPart(without, JobRole) + SkillsPart(without).value + FieldPart(without, JobLevel);
      assert Parts(without) == Ok(front + []);
      assert front + [] == front;
      assert Parts(with) == Ok(front + [JStr(RemotePhrase)]);
    }
  }

  /** Two intents agreeing on role, skills and level have the same first three parts. */
  lemma SameFields(a: Intent, b: Intent)
    requires Get(a, JobRole) == Get(b, JobRole)
    requires Get(a, Skills) == Get(b, Skills)
    requires Get(a, JobLevel) == Get(b, JobLevel)
    ensures FieldPart(a, JobRole) == FieldPart(b, JobRole)
    ensures SkillsPart(a) == SkillsPart(b)
    ensures FieldPart(a, JobLevel) == FieldPart(b, JobLevel)
  {
  }

  /**
   * The refined query is empty exactly when no part was contributed, or the
   * only part is an empty skills join (a skills list holding one empty string).
   */
  lemma EmptyQueryIff(data: Intent)
    ensures RefinedQuery(data) == Ok("") <==> Parts(data) == Ok([]) || Parts(data) == Ok([JStr("")])
  {
    var parts := Parts(data);
    if parts.Ok? {
      var ps := parts.value;
      var strs := AsStrings(ps);
      if strs.Some? {
        JoinEmptyIff(" ", strs.value);
        if strs.value == [""] {
          assert ps == [JStr("")];
        }
      }
    }
  }

  /** The one-character strings of a string, in order. */
  function Chars(s: string): (cs: seq<string>)
    ensures |cs| == |s| && forall i | 0 <= i < |s| :: cs[i] == [s[i]]
  {
    seq(|s|, i requires 0 <= i < |s| => [s[i]])
  }

  /** A skills value given as a non-empty string is iterated character by character. */
  lemma SkillsStringJoinsCharacters(data: Intent, s: string)
    requires Get(data, Skills) == JStr(s) && s != ""
    ensures SkillsPart(data) == Ok([JStr(Join(", ", Chars(s)))])
  {
    assert Iterate(JStr(s)).value == Wrap(Chars(s));
    AsStringsWrap(Chars(s));
  }

  /** Skills given as the string "SQL" become "S, Q, L". */
  lemma SqlSkills(data: Intent)
    requires Get(data, Skills) == JStr("SQL")
    ensures SkillsPart(data) == Ok([JStr("S, Q, L")])
  {
    SkillsStringJoinsCharacters(data, "SQL");
    assert Chars("SQL") == ["S", "Q", "L"];
    assert Join(", ", ["S", "Q", "L"]) == "S, Q, L";
  }

  /** A truthy role that is not a string makes `build_refined_query` raise. */
  lemma NonStringRoleRaises(data: Intent)
    requires Truthy(Get(data, JobRole)) && !Get(data, JobRole).JStr?
    ensures RefinedQuery(data) == Err(TypeError)
  {
  }

  /** A truthy level that is not a string makes `build_refined_query` raise. */
  lemma NonStringLevelRaises(data: Intent)
    requires Truthy(Get(data, JobLevel)) && !Get(data, JobLevel).JStr?
    ensures RefinedQuery(data) == Err(TypeError)
  {
    if SkillsPart(data).Ok? {
      var ps := Parts(data).value;
      var at := |FieldPart(data, JobRole) + SkillsPart(data).value|;
      assert ps[at] == Get(data, JobLevel);
      assert AsStrings(ps).None?;
    }
  }

  /** The finance-graduate intent: role, one skill and remote testing. */
  const FinanceGraduate := TypedIntent(Some("Finance Graduate"), None, Some(["accounting"]), Some("Yes"), None)

  /** A role, one skill and remote testing "Yes", read directly: the three parts in that order. */
  lemma RoleSkillRemote(role: string, skill: string)
    ensures ExpectedQuery(TypedIntent(Some(role), None, Some([skill]), Some("Yes"), None))
         == if role == "" then skill + " " + RemotePhrase else role + " " + skill + " " + RemotePhrase
  {
    assert Join(", ", [skill]) == skill;
    var rest := [skill, RemotePhrase];
    assert Join(" ", rest) == skill + " " + Join(" ", rest[1..]);
    assert rest[1..] == [RemotePhrase];
    if role != "" {
      var parts := [role, skill, RemotePhrase];
      assert [role] + [skill] + [] + [RemotePhrase] == parts;
      assert parts[1..] == rest;
    } else {
      assert [] + [skill] + [] + [RemotePhrase] == rest;
    }
  }

  /** The finance-graduate intent, read directly. */
  lemma FinanceGraduateExpected()
    ensures ExpectedQuery(FinanceGraduate) == "Finance Graduate accounting remote testing"
  {
    RoleSkillRemote("Finance Graduate", "accounting");
  }

  /** The finance-graduate example run through `build_refined_query`. */
  lemma FinanceGraduateExample()
    ensures RefinedQuery(ToJson(FinanceGraduate)) == Ok("Finance Graduate accounting remote testing")
  {
    FinanceGraduateExpected();
    TypedIntentQuery(FinanceGraduate);
  }
}
