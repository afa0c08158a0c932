/**
 * Prompt templates: `MessageTemplate` (role, content, optional name) and
 * `FunctionTemplate` (name, description, parameters), built on
 * `BasePromptTemplate`. A template keeps the values it was built with in
 * `initial_template`, and `format_message` fills placeholders in every other
 * field starting again from those initial values.
 */
module PromptTemplates {
  import opened Wrappers
  import opened PyValues
  import opened Sequences

  /**
   * Python's format-string machinery, kept abstract.
   * `parse(s)` lists the field name of each literal/replacement chunk that
   * `string.Formatter().parse(s)` yields (`None` for a chunk without a
   * replacement field), or is `None` when parsing raises `ValueError`.
   * `format(s)` is `s.format(**kwargs)` for the keyword arguments at hand,
   * or `None` when it raises.
   */
  datatype Formatter = Formatter(
    parse: string -> Option<seq<Option<string>>>,
    format: string -> Option<string>)

  /** The exceptions the template code raises. */
  datatype TemplateError =
    | TypeError      // bad arguments to a constructor or to `load`
    | ValueError     // role "function" without a name
    | FormatError    // `Formatter.parse` or `str.format` raised
    | KeyError(key: string)
    | ReadError      // the JSON file could not be opened or decoded

  /** The two concrete templates. */
  datatype TemplateKind = MessageKind | FunctionKind

  const InitialTemplateKey: string := "initial_template"

  /** The dataclass fields a template of `kind` takes in its constructor, in declaration order. */
  function FieldNames(kind: TemplateKind): (names: seq<string>)
    ensures "name" in names && InitialTemplateKey !in names
    ensures forall i, j :: 0 <= i < j < |names| ==> names[i] != names[j]
  {
    match kind
    case MessageKind => ["role", "content", "name"]
    case FunctionKind => ["name", "description", "parameters"]
  }

  /** The fields without a default value (`MessageTemplate.name` defaults to `None`). */
  function RequiredNames(kind: TemplateKind): (names: seq<string>)
    ensures forall n :: n in names ==> n in FieldNames(kind)
  {
    match kind
    case MessageKind => ["role", "content"]
    case FunctionKind => FieldNames(FunctionKind)
  }

  /** `_extract_placeholders`: the field names that are not `None`, in order. */
  function ExtractPlaceholders(f: Formatter, s: string): (r: Option<seq<string>>)
    ensures r.None? <==> f.parse(s).None?
    ensures r.Some? ==> |r.value| <= |f.parse(s).value|
  {
    match f.parse(s)
    case None => None
    case Some(fields) => Some(Collect(fields, (x: Option<string>) => x))
  }

  /** A string has placeholders exactly when one of its parsed chunks names a field. */
  lemma PlaceholdersIffField(f: Formatter, s: string)
    requires f.parse(s).Some?
    ensures ExtractPlaceholders(f, s).value != [] <==>
            exists i :: 0 <= i < |f.parse(s).value| && f.parse(s).value[i].Some?
  {
    var fields := f.parse(s).value;
    var idx := CollectIsSubsequence(fields, (x: Option<string>) => x);
    if ExtractPlaceholders(f, s).value != [] {
      assert fields[idx[0]].Some?;
    }
  }

  /**
   * `recursive_format`: a string with placeholders is formatted, a string
   * without is returned as it is, a dict is rebuilt with every value
   * formatted, and any other value is returned as it is.
   */
  function RecursiveFormat(v: Value, f: Formatter): (r: Result<Value, TemplateError>)
    ensures r.Failure? ==> r.error == FormatError
    ensures v.Str? && f.parse(v.s).None? ==> r == Failure(FormatError)
    ensures v.Str? && ExtractPlaceholders(f, v.s) == Some([]) ==> r == Success(v)
    ensures v.Str? && ExtractPlaceholders(f, v.s).Some? && ExtractPlaceholders(f, v.s).value != [] ==>
      r == (if f.format(v.s).Some? then Success(Str(f.format(v.s).value)) else Failure(FormatError))
    ensures v.Str? && r.Success? ==> r.value.Str?
    ensures !v.Str? && !v.Dict? ==> r == Success(v)
    ensures v.Dict? && r.Success? ==>
      r.value.Dict? && r.value.entries.Keys == v.entries.Keys &&
      forall k :: k in v.entries ==> RecursiveFormat(v.entries[k], f) == Success(r.value.entries[k])
    ensures v.Dict? ==>
      (r.Failure? <==> exists k :: k in v.entries && RecursiveFormat(v.entries[k], f).Failure?)
    decreases v
  {
    match v
    case Str(s) =>
      (match ExtractPlaceholders(f, s)
       case None => Failure(FormatError)
       case Some(placeholders) =>
         if placeholders == [] then Success(v)
         else
           match f.format(s)
           case None => Failure(FormatError)
           case Some(t) => Success(Str(t)))
    case Dict(entries) =>
      if exists k :: k in entries && RecursiveFormat(entries[k], f).Failure? then Failure(FormatError)
      else Success(Dict(map k | k in entries :: RecursiveFormat(entries[k], f).value))
    case _ => Success(v)
  }

  /** No string anywhere inside `v` (looking through dicts only) has a placeholder. */
  predicate PlaceholderFree(v: Value, f: Formatter)
    decreases v
  {
    match v
    case Str(s) => ExtractPlaceholders(f, s) == Some([])
    case Dict(entries) => forall k :: k in entries ==> PlaceholderFree(entries[k], f)
    case _ => true
  }

  /** Formatting a value whose strings have no placeholders gives the value back. */
  lemma {:induction false} FormatPlaceholderFree(v: Value, f: Formatter)
    requires PlaceholderFree(v, f)
    ensures RecursiveFormat(v, f) == Success(v)
    decreases v
  {
    match v
    case Str(_) =>
    case Dict(entries) =>
      forall k | k in entries ensures RecursiveFormat(entries[k], f) == Success(entries[k]) {
        FormatPlaceholderFree(entries[k], f);
      }
      var r := RecursiveFormat(v, f);
      assert r.value.entries == entries;
    case _ =>
  }

  /**
   * Binding keyword arguments to a template's constructor (`MessageTemplate(**data)`,
   * `FunctionTemplate(**data)`) followed by `__post_init__`: the field values, or
   * the exception raised. An unknown keyword (including `initial_template`, which
   * is not an `__init__` parameter) or a missing required field raises `TypeError`.
   */
  function Bind(kind: TemplateKind, data: map<string, Value>): (r: Result<map<string, Value>, TemplateError>)
    ensures r.Failure? ==> r.error == TypeError || r.error == ValueError
    ensures r.Success? ==> "name" in r.value && forall k :: k in data ==> k in r.value && r.value[k] == data[k]
  {
    if exists k :: k in data && k !in FieldNames(kind) then Failure(TypeError)
    else if exists n :: n in RequiredNames(kind) && n !in data then Failure(TypeError)
    else
      var attrs := if "name" in data then data else data["name" := Null];
      if kind == MessageKind && attrs["role"] == Str("function") && !Truthy(attrs["name"]) then
        Failure(ValueError)
      else Success(attrs)
  }

  /** The fields of a constructed template: exactly the field names, with values. */
  predicate WellFormed(kind: TemplateKind, attrs: map<string, Value>)
  {
    attrs.Keys == set n | n in FieldNames(kind)
  }

  /**
   * Construction succeeds exactly when the keywords are among the fields, the
   * required ones are all there, and a message with role "function" has a
   * truthy name; the fields are then the arguments, with `name` defaulting to
   * `None` for a message.
   */
  lemma BindOutcome(kind: TemplateKind, data: map<string, Value>)
    ensures Bind(kind, data).Failure? && Bind(kind, data).error == TypeError <==>
      (exists k :: k in data && k !in FieldNames(kind)) ||
      (exists n :: n in RequiredNames(kind) && n !in data)
    ensures Bind(kind, data).Success? ==>
      WellFormed(kind, Bind(kind, data).value) &&
      (forall k :: k in data ==> Bind(kind, data).value[k] == data[k]) &&
      ("name" !in data ==> Bind(kind, data).value["name"] == Null)
  {
    if Bind(kind, data).Success? {
      var attrs := Bind(kind, data).value;
      forall k ensures k in attrs <==> k in FieldNames(kind) {
        if k in FieldNames(kind) && k != "name" {
          assert k in RequiredNames(kind) by {
            if kind == MessageKind {
              assert k == "role" || k == "content";
            }
          }
        }
      }
    }
  }

  /**
   * With acceptable keywords, a message template is refused with `ValueError`
   * exactly when its role is "function" and its name is missing or falsy, and
   * a function template is never refused.
   */
  lemma FunctionRoleNeedsName(kind: TemplateKind, data: map<string, Value>)
    requires forall k :: k in data ==> k in FieldNames(kind)
    requires forall n :: n in RequiredNames(kind) ==> n in data
    ensures kind == FunctionKind ==> Bind(kind, data).Success?
    ensures kind == MessageKind ==>
      (Bind(kind, data) == Failure(ValueError) <==>
       data["role"] == Str("function") && ("name" !in data || !Truthy(data["name"])))
  {
  }

  /** `_initialize_template`: the dict of the template's fields, by name. */
  function InitializeTemplate(kind: TemplateKind, attrs: map<string, Value>): (t: map<string, Value>)
    requires WellFormed(kind, attrs)
    ensures forall k :: k in t ==> k in attrs && t[k] == attrs[k]
  {
    match kind
    case MessageKind =>
      map["role" := attrs["role"], "content" := attrs["content"], "name" := attrs["name"]]
    case FunctionKind =>
      map["name" := attrs["name"], "description" := attrs["description"],
          "parameters" := attrs["parameters"]]
  }

  /** `initial_template` holds exactly the template's fields and their values. */
  lemma InitialTemplateIsFields(kind: TemplateKind, attrs: map<string, Value>)
    requires WellFormed(kind, attrs)
    ensures InitializeTemplate(kind, attrs) == attrs
  {
    var t := InitializeTemplate(kind, attrs);
    assert forall k :: k in t <==> k in attrs;
  }

  /**
   * The keyword arguments `load` passes on: a string is a JSON file path, read
   * by `readJson` (`None` when reading or decoding fails); a dict is used as
   * it is; anything else raises `TypeError`. A file whose JSON is not an
   * object cannot be spread with `**` and raises `TypeError` as well.
   */
  function LoadArguments(obj: Value, readJson: string -> Option<Value>): (r: Result<map<string, Value>, TemplateError>)
    ensures obj.Dict? ==> r == Success(obj.entries)
    ensures obj.Str? ==>
      (readJson(obj.s).None? ==> r == Failure(ReadError)) &&
      (readJson(obj.s).Some? && readJson(obj.s).value.Dict? ==> r == Success(readJson(obj.s).value.entries)) &&
      (readJson(obj.s).Some? && !readJson(obj.s).value.Dict? ==> r == Failure(TypeError))
    ensures !obj.Str? && !obj.Dict? ==> r == Failure(TypeError)
  {
    match obj
    case Str(path) =>
      (match readJson(path)
       case None => Failure(ReadError)
       case Some(Dict(entries)) => Success(entries)
       case Some(_) => Failure(TypeError))
    case Dict(entries) => Success(entries)
    case _ => Failure(TypeError)
  }

  /**
   * One step of the pass at position `i`: a raising field ends it with the
   * fields as they are; otherwise the rest of the pass starts from the
   * updated fields, which keep their keys.
   */
  lemma FormatFieldsStep(names: seq<string>, i: nat, init: map<string, Value>,
                         fields: map<string, Value>, f: Formatter)
    requires i < |names| && forall n :: n in names ==> n in init && n in fields
    ensures RecursiveFormat(init[names[i]], f).Failure? ==>
      FormatFields(names[i..], init, fields, f) == (fields, Failure(RecursiveFormat(init[names[i]], f).error))
    ensures RecursiveFormat(init[names[i]], f).Success? ==>
      var next := fields[names[i] := RecursiveFormat(init[names[i]], f).value];
      next.Keys == fields.Keys &&
      FormatFields(names[i + 1..], init, next, f) == FormatFields(names[i..], init, fields, f)
  {
    assert names[i..][0] == names[i];
    assert names[i..][1..] == names[i + 1..];
  }

  /** Well-formedness depends on the keys alone. */
  lemma SameKeysWellFormed(kind: TemplateKind, a: map<string, Value>, b: map<string, Value>)
    requires WellFormed(kind, a) && a.Keys == b.Keys
    ensures WellFormed(kind, b)
  {
  }

  /**
   * The field state `format_message` leaves after visiting `names` in order,
   * each field set to its initial value formatted, and its outcome: it stops
   * at the first value whose formatting raises, leaving the later fields as
   * they were.
   */
  function FormatFields(names: seq<string>, init: map<string, Value>, fields: map<string, Value>, f: Formatter)
    : (out: (map<string, Value>, Result<(), TemplateError>))
    requires forall n :: n in names ==> n in init && n in fields
    ensures out.0.Keys == fields.Keys
    decreases |names|
  {
    if names == [] then (fields, Success(()))
    else
      match RecursiveFormat(init[names[0]], f)
      case Failure(e) => (fields, Failure(e))
      case Success(v) => FormatFields(names[1..], init, fields[names[0] := v], f)
  }

  /**
   * When the pass succeeds, every visited field is its formatted initial value
   * and every other field is untouched.
   */
  lemma {:induction false} FormatFieldsSuccess(names: seq<string>, init: map<string, Value>,
                                               fields: map<string, Value>, f: Formatter)
    requires forall n :: n in names ==> n in init && n in fields
    requires FormatFields(names, init, fields, f).1.Success?
    ensures forall n :: n in names ==>
      RecursiveFormat(init[n], f) == Success(FormatFields(names, init, fields, f).0[n])
    ensures forall k :: k in fields && k !in names ==> FormatFields(names, init, fields, f).0[k] == fields[k]
    decreases |names|
  {
    if names != [] {
      var v := RecursiveFormat(init[names[0]], f).value;
      var next := fields[names[0] := v];
      FormatFieldsSuccess(names[1..], init, next, f);
      var out := FormatFields(names, init, fields, f).0;
      assert out == FormatFields(names[1..], init, next, f).0;
      if names[0] !in names[1..] {
        assert out[names[0]] == v;
      } else {
        assert RecursiveFormat(init[names[0]], f) == Success(out[names[0]]);
      }
      forall n | n in names ensures RecursiveFormat(init[n], f) == Success(out[n]) {
        if n != names[0] {
          assert n in names[1..];
        }
      }
    }
  }

  /**
   * The pass fails exactly when formatting the initial value of one of the
   * visited fields raises.
   */
  lemma {:induction false} FormatFieldsFailure(names: seq<string>, init: map<string, Value>,
                                               fields: map<string, Value>, f: Formatter)
    requires forall n :: n in names ==> n in init && n in fields
    ensures FormatFields(names, init, fields, f).1.Failure? <==>
      exists n :: n in names && RecursiveFormat(init[n], f).Failure?
    decreases |names|
  {
    if names != [] {
      match RecursiveFormat(init[names[0]], f)
      case Failure(_) =>
      case Success(v) =>
        FormatFieldsFailure(names[1..], init, fields[names[0] := v], f);
        if exists n :: n in names && RecursiveFormat(init[n], f).Failure? {
          var n :| n in names && RecursiveFormat(init[n], f).Failure?;
          assert n in names[1..];
        }
    }
  }

  /** A field already holding its formatted initial value keeps it through the pass. */
  lemma {:induction false} FormatFieldsKeeps(names: seq<string>, init: map<string, Value>,
                                             fields: map<string, Value>, f: Formatter, k: string)
    requires forall n :: n in names ==> n in init && n in fields
    requires k in fields && k in init && RecursiveFormat(init[k], f) == Success(fields[k])
    ensures FormatFields(names, init, fields, f).0[k] == fields[k]
    decreases |names|
  {
    if names != [] {
      match RecursiveFormat(init[names[0]], f)
      case Failure(_) =>
      case Success(v) =>
        FormatFieldsKeeps(names[1..], init, fields[names[0] := v], f, k);
    }
  }

  /**
   * Formatting again with the same arguments changes nothing: every pass starts
   * from the initial values, not from the fields of the previous pass.
   */
  lemma {:induction false} FormatFieldsIdempotent(names: seq<string>, init: map<string, Value>,
                                                  fields: map<string, Value>, f: Formatter)
    requires forall n :: n in names ==> n in init && n in fields
    ensures FormatFields(names, init, FormatFields(names, init, fields, f).0, f) ==
            FormatFields(names, init, fields, f)
    decreases |names|
  {
    if names != [] {
      match RecursiveFormat(init[names[0]], f)
      case Failure(_) =>
      case Success(v) =>
        var next := fields[names[0] := v];
        var once := FormatFields(names[1..], init, next, f);
        FormatFieldsKeeps(names[1..], init, next, f, names[0]);
        assert once.0[names[0] := v] == once.0;
        FormatFieldsIdempotent(names[1..], init, next, f);
    }
  }

  /**
   * `_exclude_keys`: the keys `exclude` drops from a dict, and `name` when its
   * value is falsy.
   */
  function ExcludedKeys(d: map<string, Value>, exclude: Option<seq<string>>): set<string>
    requires "name" in d
  {
    (if Truthy(d["name"]) then {} else {"name"}) +
    (if exclude.Some? then set k | k in exclude.value else {})
  }

  /**
   * `_exclude_keys`: pops `name` when its value is falsy, then pops every key
   * listed in `exclude` (missing keys are ignored). Looking up `name` raises
   * `KeyError` when the dict has none.
   */
  method ExcludeKeys(d: map<string, Value>, exclude: Option<seq<string>>)
    returns (r: Result<map<string, Value>, TemplateError>)
    ensures r.Failure? <==> "name" !in d
    ensures r.Failure? ==> r.error == KeyError("name")
    ensures r.Success? ==> forall k :: k in r.value <==> k in d && k !in ExcludedKeys(d, exclude)
    ensures r.Success? ==> forall k :: k in r.value ==> r.value[k] == d[k]
  {
    if "name" !in d {
      return Failure(KeyError("name"));
    }
    var out := d;
    if !Truthy(d["name"]) {
      out := out - {"name"};
    }
    if exclude.Some? && exclude.value != [] {
      var items := exclude.value;
      var i := 0;
      while i < |items|
        invariant 0 <= i <= |items|
        invariant forall k :: k in out <==>
          k in d && k !in (if Truthy(d["name"]) then {} else {"name"}) && k !in items[..i]
        invariant forall k :: k in out ==> out[k] == d[k]
      {
        out := out - {items[i]};
        i := i + 1;
      }
      assert items[..i] == items;
    }
    return Success(out);
  }

  /**
   * A prompt template. `fields` holds the dataclass fields other than
   * `initial_template` (the entries `format_message` rewrites in `__dict__`).
   */
  class PromptTemplate {
    const kind: TemplateKind
    var fields: map<string, Value>
    var initialTemplate: map<string, Value>

    /** Both dicts have exactly the template's field names. */
    predicate Valid()
      reads this
    {
      WellFormed(kind, fields) && WellFormed(kind, initialTemplate)
    }

    /** `__init__` with bound arguments, then `__post_init__` storing `initial_template`. */
    constructor (kind: TemplateKind, attrs: map<string, Value>)
      requires WellFormed(kind, attrs)
      ensures Valid()
      ensures this.kind == kind && fields == attrs
      ensures initialTemplate == InitializeTemplate(kind, attrs)
    {
      this.kind := kind;
      fields := attrs;
      initialTemplate := InitializeTemplate(kind, attrs);
    }

    /** `_from_dict`: `MessageTemplate(**data)` or `FunctionTemplate(**data)`. */
    static method FromDict(kind: TemplateKind, data: map<string, Value>)
      returns (r: Result<PromptTemplate, TemplateError>)
      ensures r.Failure? <==> Bind(kind, data).Failure?
      ensures r.Failure? ==> r.error == Bind(kind, data).error
      ensures r.Success? ==>
        (fresh(r.value) && r.value.Valid() && r.value.kind == kind &&
         r.value.fields == Bind(kind, data).value && r.value.initialTemplate == r.value.fields)
    {
      match Bind(kind, data)
      case Failure(e) =>
        r := Failure(e);
      case Success(attrs) =>
        BindOutcome(kind, data);
        InitialTemplateIsFields(kind, attrs);
        var t := new PromptTemplate(kind, attrs);
        r := Success(t);
    }

    /** `load`: a template from a JSON file path or from a dict. */
    static method Load(kind: TemplateKind, obj: Value, readJson: string -> Option<Value>)
      returns (r: Result<PromptTemplate, TemplateError>)
      ensures LoadArguments(obj, readJson).Failure? ==> r == Failure(LoadArguments(obj, readJson).error)
      ensures LoadArguments(obj, readJson).Success? ==>
        var bound := Bind(kind, LoadArguments(obj, readJson).value);
        (r.Failure? <==> bound.Failure?) &&
        (r.Failure? ==> r.error == bound.error) &&
        (r.Success? ==> fresh(r.value) && r.value.Valid() && r.value.kind == kind &&
                        r.value.fields == bound.value && r.value.initialTemplate == r.value.fields)
    {
      match LoadArguments(obj, readJson)
      case Failure(e) =>
        r := Failure(e);
      case Success(data) =>
        r := FromDict(kind, data);
    }

    /**
     * `format_message`: sets every field to its initial value formatted, in
     * field order, and stops at the first one whose formatting raises.
     * `initial_template` is never changed.
     */
    method FormatMessage(f: Formatter) returns (r: Result<(), TemplateError>)
      requires Valid()
      modifies this
      ensures Valid()
      ensures initialTemplate == old(initialTemplate)
      ensures (fields, r) == FormatFields(FieldNames(kind), initialTemplate, old(fields), f)
    {
      var names := FieldNames(kind);
      var init := initialTemplate;
      ghost var start := fields;
      var i := 0;
      while i < |names|
        invariant 0 <= i <= |names|
        invariant initialTemplate == init
        invariant fields.Keys == start.Keys
        invariant FormatFields(names[i..], init, fields, f) == FormatFields(names, init, start, f)
      {
        var key := names[i];
        var res := RecursiveFormat(init[key], f);
        FormatFieldsStep(names, i, init, fields, f);
        if res.Failure? {
          SameKeysWellFormed(kind, start, fields);
          return Failure(res.error);
        }
        fields := fields[key := res.value];
        i := i + 1;
      }
      SameKeysWellFormed(kind, start, fields);
      return Success(());
    }

    /** `asdict(self)`: the fields together with `initial_template`. */
    function AsDict(): (d: map<string, Value>)
      reads this
      requires Valid()
      ensures d.Keys == fields.Keys + {InitialTemplateKey}
      ensures d[InitialTemplateKey] == Dict(initialTemplate)
      ensures forall k :: k in fields ==> d[k] == fields[k]
    {
      fields[InitialTemplateKey := Dict(initialTemplate)]
    }

    /**
     * `to_prompt`: `asdict(self)` with the excluded keys dropped. It never
     * raises, and by default the result has no `initial_template`.
     */
    method ToPrompt(exclude: Option<seq<string>> := Some([InitialTemplateKey]))
      returns (r: Result<map<string, Value>, TemplateError>)
      requires Valid()
      ensures r.Success?
      ensures forall k :: k in r.value <==> k in AsDict() && k !in ExcludedKeys(AsDict(), exclude)
      ensures forall k :: k in r.value ==> r.value[k] == AsDict()[k]
      ensures exclude == Some([InitialTemplateKey]) ==> InitialTemplateKey !in r.value
    {
      r := ExcludeKeys(AsDict(), exclude);
    }
  }
}
