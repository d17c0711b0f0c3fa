/** The Todo record and its schema: the five-field check every response body
    passes before the client reports it (public/todo.js). */
module TodoSchema {
  import opened Wrappers
  import opened Text
  import opened DateTime
  import opened Json

  /** A validated Todo. `completedAt` is None for an incomplete todo. */
  datatype Todo = Todo(id: string, title: string, completedAt: Option<string>,
                       createdAt: string, updatedAt: string)

  const TitleMinLength: nat := 1
  const TitleMaxLength: nat := 255

  /** The schema's keys, in declaration order (the order issues are reported in). */
  datatype SchemaKey = Id | Title | CompletedAt | CreatedAt | UpdatedAt

  const AllKeys: seq<SchemaKey> := [Id, Title, CompletedAt, CreatedAt, UpdatedAt]

  /** The schema key a JSON member name stands for, if any. */
  function KeyOf(name: string): Option<SchemaKey> {
    if name == "id" then Some(Id)
    else if name == "title" then Some(Title)
    else if name == "completedAt" then Some(CompletedAt)
    else if name == "createdAt" then Some(CreatedAt)
    else if name == "updatedAt" then Some(UpdatedAt)
    else None
  }

  /** The JSON member name of a key; distinct keys have distinct names. */
  function Name(k: SchemaKey): (name: string)
    ensures KeyOf(name) == Some(k)
  {
    match k
    case Id => "id"
    case Title => "title"
    case CompletedAt => "completedAt"
    case CreatedAt => "createdAt"
    case UpdatedAt => "updatedAt"
  }

  /** A title's length is counted in UTF-16 code units, as JavaScript counts it. */
  predicate ValidTitle(title: string) {
    TitleMinLength <= Utf16Length(title) <= TitleMaxLength
  }

  /** The constraints of the schema, stated on the typed record. */
  predicate ValidTodo(t: Todo) {
    && IsUuid(t.id)
    && ValidTitle(t.title)
    && (t.completedAt.Some? ==> IsDateTime(t.completedAt.value))
    && IsDateTime(t.createdAt)
    && IsDateTime(t.updatedAt)
  }

  /** The JSON value a server sends for one field of a todo. */
  function Encode(t: Todo, k: SchemaKey): Json {
    match k
    case Id => JString(t.id)
    case Title => JString(t.title)
    case CompletedAt => if t.completedAt.Some? then JString(t.completedAt.value) else JNull
    case CreatedAt => JString(t.createdAt)
    case UpdatedAt => JString(t.updatedAt)
  }

  /** The JSON object a server sends for a todo. */
  function ToJson(t: Todo): (j: Json)
    ensures j.JObject?
  {
    JObject(map[
      Name(Id) := Encode(t, Id),
      Name(Title) := Encode(t, Title),
      Name(CompletedAt) := Encode(t, CompletedAt),
      Name(CreatedAt) := Encode(t, CreatedAt),
      Name(UpdatedAt) := Encode(t, UpdatedAt)])
  }

  /** `fields[key]`, with None for `undefined`. */
  function Field(fields: map<string, Json>, key: string): Option<Json> {
    if key in fields then Some(fields[key]) else None
  }

  /** Each of the five members of a todo's JSON holds that field's encoding,
      and it has no other member. */
  lemma ToJsonFields(t: Todo)
    ensures forall k: SchemaKey :: Field(ToJson(t).fields, Name(k)) == Some(Encode(t, k))
    ensures forall key :: key in ToJson(t).fields ==> exists k: SchemaKey :: key == Name(k)
  {
  }

  // ---------------------------------------------------------------------------
  // Validation errors
  // ---------------------------------------------------------------------------

  /** One step of an issue's path: an object key or an array position. */
  datatype PathKey = Key(name: string) | Index(position: nat)

  /** A failed parse lists the paths of the values that broke the schema;
      the empty path is the value itself. */
  datatype ValidationError = ValidationError(issues: seq<seq<PathKey>>)

  // ---------------------------------------------------------------------------
  // Parsing one todo
  // ---------------------------------------------------------------------------

  /** The JSON type the schema expects under a key: a string, or for
      `completedAt` also null. */
  predicate HasType(k: SchemaKey, j: Json) {
    if k == CompletedAt then j.JNull? || j.JString? else j.JString?
  }

  /** The schema's constraint on the value under one key. A missing key never
      passes: `completedAt` is nullable, not optional. */
  predicate Accepts(k: SchemaKey, v: Option<Json>) {
    && v.Some? && HasType(k, v.value)
    && (v.value.JString? ==>
          match k
          case Id => IsUuid(v.value.s)
          case Title => ValidTitle(v.value.s)
          case _ => IsDateTime(v.value.s))
  }

  /** Every schema key is present with a value of its JSON type. */
  predicate Typed(fields: map<string, Json>) {
    forall k: SchemaKey :: Field(fields, Name(k)).Some? && HasType(k, Field(fields, Name(k)).value)
  }

  /** The value meets the constraint of every schema key. */
  predicate Conforms(fields: map<string, Json>) {
    forall k: SchemaKey :: Accepts(k, Field(fields, Name(k)))
  }

  /** One issue per key in `keys` whose value breaks its constraint, in order. */
  function KeyIssues(fields: map<string, Json>, keys: seq<SchemaKey>): (r: seq<seq<PathKey>>)
    ensures forall k :: k in keys ==> ([Key(Name(k))] in r <==> !Accepts(k, Field(fields, Name(k))))
    ensures forall p: seq<PathKey> :: p in r ==> exists k :: k in keys && p == [Key(Name(k))]
  {
    if |keys| == 0 then []
    else
      (if Accepts(keys[0], Field(fields, Name(keys[0]))) then [] else [[Key(Name(keys[0]))]])
      + KeyIssues(fields, keys[1..])
  }

  lemma ConformsIsTyped(fields: map<string, Json>)
    requires Conforms(fields)
    ensures Typed(fields)
  {
    forall k: SchemaKey ensures Field(fields, Name(k)).Some? && HasType(k, Field(fields, Name(k)).value) {
      assert Accepts(k, Field(fields, Name(k)));
    }
  }

  /** The todo an object with the right member types describes. */
  function Decode(fields: map<string, Json>): (t: Todo)
    requires Typed(fields)
    ensures forall k: SchemaKey :: Field(fields, Name(k)) == Some(Encode(t, k))
  {
    assert Field(fields, Name(Id)).Some? && Field(fields, Name(Title)).Some?;
    assert Field(fields, Name(CompletedAt)).Some? && HasType(CompletedAt, Field(fields, Name(CompletedAt)).value);
    assert Field(fields, Name(CreatedAt)).Some? && Field(fields, Name(UpdatedAt)).Some?;
    var completed := fields[Name(CompletedAt)];
    Todo(fields[Name(Id)].s, fields[Name(Title)].s,
         if completed.JNull? then None else Some(completed.s),
         fields[Name(CreatedAt)].s, fields[Name(UpdatedAt)].s)
  }

  /** A todo is valid iff every field's encoding meets its key's constraint. */
  lemma ValidTodoIffFieldsAccepted(t: Todo)
    ensures ValidTodo(t) <==> forall k: SchemaKey :: Accepts(k, Some(Encode(t, k)))
  {
    assert Accepts(Id, Some(Encode(t, Id))) <==> IsUuid(t.id);
    assert Accepts(Title, Some(Encode(t, Title))) <==> ValidTitle(t.title);
    assert Accepts(CompletedAt, Some(Encode(t, CompletedAt))) <==>
      (t.completedAt.Some? ==> IsDateTime(t.completedAt.value));
    assert Accepts(CreatedAt, Some(Encode(t, CreatedAt))) <==> IsDateTime(t.createdAt);
    assert Accepts(UpdatedAt, Some(Encode(t, UpdatedAt))) <==> IsDateTime(t.updatedAt);
    if ValidTodo(t) {
      forall k: SchemaKey ensures Accepts(k, Some(Encode(t, k))) {
        match k
        case Id =>
        case Title =>
        case CompletedAt =>
        case CreatedAt =>
        case UpdatedAt =>
      }
    }
  }

  /** The key list names every key. */
  lemma AllKeysComplete()
    ensures forall k: SchemaKey :: k in AllKeys
  {
    forall k: SchemaKey ensures k in AllKeys {
      match k
      case Id =>
      case Title =>
      case CompletedAt =>
      case CreatedAt =>
      case UpdatedAt =>
    }
  }

  /** No issue is reported exactly when the value conforms. */
  lemma KeyIssuesEmptyIffConforms(fields: map<string, Json>)
    ensures KeyIssues(fields, AllKeys) == [] <==> Conforms(fields)
  {
    AllKeysComplete();
    var issues := KeyIssues(fields, AllKeys);
    if issues != [] {
      assert issues[0] in issues;
      var k :| k in AllKeys && issues[0] == [Key(Name(k))];
      assert !Accepts(k, Field(fields, Name(k)));
    }
  }

  /** `TodoSchema.parse`: an object whose five keys meet their constraints
      becomes a Todo (other keys are dropped); anything else is rejected with
      the failing keys, or with the value itself when it is not an object.
      `v` is None when the value is `undefined`. */
  function Parse(v: Option<Json>): (r: Result<Todo, ValidationError>)
    ensures r.Success? <==> v.Some? && v.value.JObject? && Conforms(v.value.fields)
    ensures r.Success? ==> ValidTodo(r.value)
    ensures r.Success? ==> forall k: SchemaKey :: Field(v.value.fields, Name(k)) == Field(ToJson(r.value).fields, Name(k))
    ensures r.Failure? ==> |r.error.issues| > 0
    ensures r.Failure? && !(v.Some? && v.value.JObject?) ==> r.error.issues == [[]]
    ensures r.Failure? && v.Some? && v.value.JObject? ==>
      forall k: SchemaKey :: [Key(Name(k))] in r.error.issues <==> !Accepts(k, Field(v.value.fields, Name(k)))
  {
    if !(v.Some? && v.value.JObject?) then Failure(ValidationError([[]]))
    else
      var f := v.value.fields;
      var issues := KeyIssues(f, AllKeys);
      AllKeysComplete();
      KeyIssuesEmptyIffConforms(f);
      if issues != [] then Failure(ValidationError(issues))
      else
        ConformsIsTyped(f);
        var t := Decode(f);
        ToJsonFields(t);
        ValidTodoIffFieldsAccepted(t);
        Success(t)
  }

  // ---------------------------------------------------------------------------
  // Parsing an array of todos
  // ---------------------------------------------------------------------------

  /** Issues of one element, each path prefixed with that element's position. */
  function Prefixed(position: nat, issues: seq<seq<PathKey>>): (r: seq<seq<PathKey>>)
    ensures |r| == |issues|
    ensures forall k :: 0 <= k < |issues| ==> r[k] == [Index(position)] + issues[k]
  {
    seq(|issues|, k requires 0 <= k < |issues| => [Index(position)] + issues[k])
  }

  /** `schema.array()` over `items` numbered from `from`: every element is
      checked, the issues of all failing elements are collected, and the array
      passes only when every element does. */
  function ParseEach<T>(parse: Option<Json> -> Result<T, ValidationError>, items: seq<Json>, from: nat)
    : (r: Result<seq<T>, ValidationError>)
    ensures r.Success? <==> forall i :: 0 <= i < |items| ==> parse(Some(items[i])).Success?
    ensures r.Success? ==> |r.value| == |items|
    ensures r.Success? ==> forall i :: 0 <= i < |items| ==> parse(Some(items[i])) == Success(r.value[i])
    ensures r.Failure? && (forall i :: 0 <= i < |items| && parse(Some(items[i])).Failure? ==> |parse(Some(items[i])).error.issues| > 0)
      ==> |r.error.issues| > 0
    ensures forall i, issue :: 0 <= i < |items| && parse(Some(items[i])).Failure? && issue in parse(Some(items[i])).error.issues ==>
      r.Failure? && [Index(from + i)] + issue in r.error.issues
    decreases |items|
  {
    if |items| == 0 then Success([])
    else
      var head := parse(Some(items[0]));
      var tail := ParseEach(parse, items[1..], from + 1);
      assert forall i :: 1 <= i < |items| ==> items[1..][i - 1] == items[i];
      if head.Success? && tail.Success? then Success([head.value] + tail.value)
      else
        var headIssues := if head.Failure? then Prefixed(from, head.error.issues) else [];
        var tailIssues := if tail.Failure? then tail.error.issues else [];
        Failure(ValidationError(headIssues + tailIssues))
  }

  /** `TodoSchema.array().parse`: an array all of whose elements are todos. */
  function ParseArray(v: Option<Json>): (r: Result<seq<Todo>, ValidationError>)
    ensures r.Success? <==>
      v.Some? && v.value.JArray? && forall i :: 0 <= i < |v.value.items| ==> Parse(Some(v.value.items[i])).Success?
    ensures r.Success? ==> |r.value| == |v.value.items|
    ensures r.Success? ==> forall i :: 0 <= i < |r.value| ==> Parse(Some(v.value.items[i])) == Success(r.value[i])
    ensures r.Success? ==> forall i :: 0 <= i < |r.value| ==> ValidTodo(r.value[i])
    ensures v.Some? && v.value.JArray? ==>
      forall i, issue :: 0 <= i < |v.value.items| && Parse(Some(v.value.items[i])).Failure? && issue in Parse(Some(v.value.items[i])).error.issues ==>
        r.Failure? && [Index(i)] + issue in r.error.issues
  {
    if v.Some? && v.value.JArray? then
      var r := ParseEach(Parse, v.value.items, 0);
      assert r.Success? ==> forall i :: 0 <= i < |r.value| ==> Parse(Some(v.value.items[i])).Success? && Parse(Some(v.value.items[i])).value == r.value[i];
      r
    else Failure(ValidationError([[]]))
  }

  // ---------------------------------------------------------------------------
  // Properties
  // ---------------------------------------------------------------------------

  /** A todo's own JSON parses back to it exactly when it meets the schema. */
  lemma ParseOfToJson(t: Todo)
    ensures Parse(Some(ToJson(t))).Success? <==> ValidTodo(t)
    ensures ValidTodo(t) ==> Parse(Some(ToJson(t))) == Success(t)
  {
    ToJsonFields(t);
    ValidTodoIffFieldsAccepted(t);
    var r := Parse(Some(ToJson(t)));
    if r.Success? {
      ToJsonFields(r.value);
      EncodeInjective(r.value, t);
    }
  }

  /** The JSON array of the todos' encodings, as the index route sends it. */
  function ArrayJson(todos: seq<Todo>): (j: Json)
    ensures j.JArray? && |j.items| == |todos|
    ensures forall i :: 0 <= i < |todos| ==> j.items[i] == ToJson(todos[i])
  {
    JArray(seq(|todos|, i requires 0 <= i < |todos| => ToJson(todos[i])))
  }

  /** An array of todos' own JSON parses back to those todos exactly when
      every one of them meets the schema. */
  lemma ParseArrayOfArrayJson(todos: seq<Todo>)
    ensures ParseArray(Some(ArrayJson(todos))).Success? <==> forall i :: 0 <= i < |todos| ==> ValidTodo(todos[i])
    ensures (forall i :: 0 <= i < |todos| ==> ValidTodo(todos[i])) ==> ParseArray(Some(ArrayJson(todos))) == Success(todos)
  {
    if forall i :: 0 <= i < |todos| ==> ValidTodo(todos[i]) {
      ArrayJsonParsesBack(todos);
    } else if ParseArray(Some(ArrayJson(todos))).Success? {
      ParsedArrayJsonIsValid(todos);
    }
  }

  lemma ArrayJsonParsesBack(todos: seq<Todo>)
    requires forall i :: 0 <= i < |todos| ==> ValidTodo(todos[i])
    ensures ParseArray(Some(ArrayJson(todos))) == Success(todos)
  {
    var j := ArrayJson(todos);
    forall i | 0 <= i < |todos|
      ensures Parse(Some(j.items[i])) == Success(todos[i])
    {
      ParseOfToJson(todos[i]);
    }
    var r := ParseArray(Some(j));
    forall i | 0 <= i < |todos| ensures r.value[i] == todos[i] {
      assert Parse(Some(j.items[i])) == Success(r.value[i]);
    }
    assert r.value == todos;
  }

  lemma ParsedArrayJsonIsValid(todos: seq<Todo>)
    requires ParseArray(Some(ArrayJson(todos))).Success?
    ensures forall i :: 0 <= i < |todos| ==> ValidTodo(todos[i])
  {
    var j := ArrayJson(todos);
    forall i | 0 <= i < |todos|
      ensures ValidTodo(todos[i])
    {
      assert Parse(Some(j.items[i])).Success?;
      ParseOfToJson(todos[i]);
    }
  }

  /** A todo is determined by the encodings of its five fields. */
  lemma EncodeInjective(a: Todo, b: Todo)
    requires forall k: SchemaKey :: Encode(a, k) == Encode(b, k)
    ensures a == b
  {
    assert Encode(a, Id) == Encode(b, Id) && Encode(a, Title) == Encode(b, Title);
    assert Encode(a, CompletedAt) == Encode(b, CompletedAt);
    assert Encode(a, CreatedAt) == Encode(b, CreatedAt) && Encode(a, UpdatedAt) == Encode(b, UpdatedAt);
  }

  /** Members the schema does not name are stripped: they never change the outcome. */
  lemma ParseIgnoresUnknownKeys(fields: map<string, Json>, key: string, value: Json)
    requires KeyOf(key).None?
    ensures Parse(Some(JObject(fields[key := value]))) == Parse(Some(JObject(fields)))
  {
    var g := fields[key := value];
    forall k: SchemaKey ensures Field(g, Name(k)) == Field(fields, Name(k)) {
      assert Name(k) != key;
    }
    KeyIssuesAgree(g, fields, AllKeys);
    if Conforms(fields) {
      ConformsIsTyped(fields);
      ConformsIsTyped(g);
      assert Decode(g) == Decode(fields) by {
        EncodeInjective(Decode(g), Decode(fields));
      }
    }
  }

  lemma {:induction false} KeyIssuesAgree(f: map<string, Json>, g: map<string, Json>, keys: seq<SchemaKey>)
    requires forall k: SchemaKey :: Field(f, Name(k)) == Field(g, Name(k))
    ensures KeyIssues(f, keys) == KeyIssues(g, keys)
  {
    if |keys| > 0 {
      KeyIssuesAgree(f, g, keys[1..]);
    }
  }

  /** A value lacking any one of the five members is rejected, and the issue
      names that member. */
  lemma MissingKeyRejected(t: Todo, k: SchemaKey)
    ensures Parse(Some(JObject(ToJson(t).fields - {Name(k)}))).Failure?
    ensures [Key(Name(k))] in Parse(Some(JObject(ToJson(t).fields - {Name(k)}))).error.issues
  {
    assert Field(ToJson(t).fields - {Name(k)}, Name(k)) == None;
  }

  /** A title is accepted iff its length is 1 to 255. */
  lemma TitleLengthRule(t: Todo, title: string)
    requires ValidTodo(t)
    ensures Parse(Some(ToJson(t.(title := title)))).Success? <==> 1 <= Utf16Length(title) <= 255
  {
    ParseOfToJson(t.(title := title));
  }

  /** An id is accepted iff it has the UUID layout. */
  lemma IdMustBeUuid(t: Todo, id: string)
    requires ValidTodo(t)
    ensures Parse(Some(ToJson(t.(id := id)))).Success? <==> IsUuid(id)
  {
    ParseOfToJson(t.(id := id));
  }

  /** A completion time is accepted iff it is an RFC 3339 date-time. */
  lemma CompletedAtMustBeDateTime(t: Todo, completedAt: string)
    requires ValidTodo(t)
    ensures Parse(Some(ToJson(t.(completedAt := Some(completedAt))))).Success? <==> IsDateTime(completedAt)
  {
    ParseOfToJson(t.(completedAt := Some(completedAt)));
  }

  /** An object whose five members are the encodings of a valid todo parses
      to that todo, whatever else it holds. */
  lemma ParseByFields(fields: map<string, Json>, t: Todo)
    requires ValidTodo(t)
    requires forall k: SchemaKey :: Field(fields, Name(k)) == Some(Encode(t, k))
    ensures Parse(Some(JObject(fields))) == Success(t)
  {
    ValidTodoIffFieldsAccepted(t);
    var r := Parse(Some(JObject(fields)));
    assert Conforms(fields);
    ToJsonFields(r.value);
    EncodeInjective(r.value, t);
  }

  /** Null is accepted for `completedAt`, where it means "not completed", and
      for no other member: not for `createdAt` or `updatedAt`. */
  lemma OnlyCompletedAtIsNullable(t: Todo, k: SchemaKey)
    requires ValidTodo(t)
    ensures Parse(Some(JObject(ToJson(t).fields[Name(k) := JNull]))).Success? <==> k == CompletedAt
    ensures k == CompletedAt ==>
      Parse(Some(JObject(ToJson(t).fields[Name(k) := JNull]))) == Success(t.(completedAt := None))
  {
    if k == CompletedAt {
      NullCompletedAtAccepted(t);
    } else {
      NullFieldRejected(t, k);
    }
  }

  lemma NullCompletedAtAccepted(t: Todo)
    requires ValidTodo(t)
    ensures Parse(Some(JObject(ToJson(t).fields[Name(CompletedAt) := JNull]))) == Success(t.(completedAt := None))
  {
    var u := t.(completedAt := None);
    assert ToJson(t).fields[Name(CompletedAt) := JNull] == ToJson(u).fields;
    assert ValidTodo(u);
    ParseOfToJson(u);
  }

  lemma NullFieldRejected(t: Todo, k: SchemaKey)
    requires k != CompletedAt
    ensures Parse(Some(JObject(ToJson(t).fields[Name(k) := JNull]))).Failure?
  {
    var g := ToJson(t).fields[Name(k) := JNull];
    assert Field(g, Name(k)) == Some(JNull);
    assert !Accepts(k, Field(g, Name(k)));
  }

}
