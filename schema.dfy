/** The part of the schema library the validators use: request bodies as JSON values, the
    per-field checks (string, trimmed string, minimum and maximum length, optional,
    array with a default, two-value enum) and the issues they report, in field order. */
module Schema {
  import opened Common
  import opened Text

  /** A parsed JSON value. Numbers are integers here; no field accepts a number anyway. */
  datatype Value =
    | Null
    | Bool(b: bool)
    | Number(n: int)
    | Str(s: string)
    | Array(items: seq<Value>)
    | Object(fields: map<string, Value>)

  /** A property of an object, or `None` for `undefined` (absent key, or not an object). */
  function Field(v: Value, key: string): (r: Option<Value>)
    ensures r.Some? <==> v.Object? && key in v.fields
  {
    if v.Object? && key in v.fields then Some(v.fields[key]) else None
  }

  /** The message of an issue: one written in the schema, or one the library generates
      for a type mismatch or an invalid enum value at the named field. */
  datatype Message = Says(text: string) | LibraryMessage(field: string)

  /** The outcome of checking one field: its parsed value, or the issues it raised. */
  datatype Check<T> = Valid(value: T) | Invalid(issues: seq<Message>)

  function IssuesOf<T>(c: Check<T>): seq<Message>
  {
    if c.Invalid? then c.issues else []
  }

  /** Every check the validators use reports at least one issue when it fails. */
  predicate IssueWhenInvalid<T>(c: Check<T>) { c.Invalid? ==> |c.issues| >= 1 }

  lemma InvalidHasIssues<T>(c: Check<T>)
    requires IssueWhenInvalid(c)
    ensures c.Invalid? ==> |IssuesOf(c)| >= 1
  {
  }

  datatype Language = ES | EN

  /** `z.string().trim().min(1, msg)` */
  function TrimmedRequired(v: Option<Value>, field: string, msg: string): (r: Check<string>)
    ensures r.Valid? <==> v.Some? && v.value.Str? && Trim(v.value.s) != []
    ensures r.Valid? ==> r.value == Trim(v.value.s)
    ensures r.Invalid? ==> |r.issues| == 1
    ensures r.Invalid? && v.Some? && v.value.Str? ==> r.issues == [Says(msg)]
    ensures r.Invalid? && !(v.Some? && v.value.Str?) ==> r.issues == [LibraryMessage(field)]
  {
    if v.Some? && v.value.Str? then
      var t := Trim(v.value.s);
      if |t| >= 1 then Valid(t) else Invalid([Says(msg)])
    else Invalid([LibraryMessage(field)])
  }

  /** `z.string().trim().optional()` */
  function TrimmedOptional(v: Option<Value>, field: string): (r: Check<Option<string>>)
    ensures r.Valid? <==> v.None? || v.value.Str?
    ensures r.Valid? && v.None? ==> r.value == None
    ensures r.Valid? && v.Some? ==> r.value == Some(Trim(v.value.s))
    ensures r.Invalid? ==> r.issues == [LibraryMessage(field)]
  {
    match v
    case None => Valid(None)
    case Some(Str(s)) => Valid(Some(Trim(s)))
    case Some(_) => Invalid([LibraryMessage(field)])
  }

  /** `z.string().optional()` */
  function PlainOptional(v: Option<Value>, field: string): (r: Check<Option<string>>)
    ensures r.Valid? <==> v.None? || v.value.Str?
    ensures r.Valid? && v.Some? ==> r.value == Some(v.value.s)
    ensures r.Valid? && v.None? ==> r.value == None
  {
    match v
    case None => Valid(None)
    case Some(Str(s)) => Valid(Some(s))
    case Some(_) => Invalid([LibraryMessage(field)])
  }

  /** The elements of an array checked by `z.string()`, trimmed when `trim` holds; every
      element that is not a string raises its own issue. */
  function StringElements(items: seq<Value>, field: string, trim: bool): (r: Check<seq<string>>)
    ensures r.Valid? <==> forall i :: 0 <= i < |items| ==> items[i].Str?
    ensures r.Valid? ==> (|r.value| == |items| &&
              forall i :: 0 <= i < |items| ==>
                r.value[i] == (if trim then Trim(items[i].s) else items[i].s))
    ensures r.Invalid? ==> |r.issues| >= 1
    ensures r.Invalid? ==> forall k :: 0 <= k < |r.issues| ==> r.issues[k] == LibraryMessage(field)
  {
    if items == [] then Valid([])
    else
      var head: Check<string> :=
        if items[0].Str? then Valid(if trim then Trim(items[0].s) else items[0].s)
        else Invalid([LibraryMessage(field)]);
      var tail := StringElements(items[1..], field, trim);
      if head.Valid? && tail.Valid? then Valid([head.value] + tail.value)
      else
        assert tail.Valid? ==> forall i :: 0 <= i < |items| - 1 ==> items[1..][i].Str?;
        Invalid(IssuesOf(head) + IssuesOf(tail))
  }

  /** `z.array(z.string())` (with `trim` for `z.array(z.string().trim())`) `.default([])` */
  function StringArrayDefaultEmpty(v: Option<Value>, field: string, trim: bool): (r: Check<seq<string>>)
    ensures v.None? ==> r == Valid([])
    ensures v.Some? && !v.value.Array? ==> r == Invalid([LibraryMessage(field)])
    ensures v.Some? && v.value.Array? ==> r == StringElements(v.value.items, field, trim)
  {
    match v
    case None => Valid([])
    case Some(Array(items)) => StringElements(items, field, trim)
    case Some(_) => Invalid([LibraryMessage(field)])
  }

  /** `z.enum(['ES', 'EN'])`, with `z.enum(...).default('ES')` when `defaultES` holds. */
  function LanguageEnum(v: Option<Value>, field: string, defaultES: bool): (r: Check<Language>)
    ensures r == Valid(ES) <==> v == Some(Str("ES")) || (defaultES && v.None?)
    ensures r == Valid(EN) <==> v == Some(Str("EN"))
    ensures r.Invalid? ==> r.issues == [LibraryMessage(field)]
  {
    if v == Some(Str("ES")) then Valid(ES)
    else if v == Some(Str("EN")) then Valid(EN)
    else if defaultES && v.None? then Valid(ES)
    else Invalid([LibraryMessage(field)])
  }

  /** The language tag as the store keeps it. */
  function LanguageText(l: Language): string
  {
    match l
    case ES => "ES"
    case EN => "EN"
  }
}
