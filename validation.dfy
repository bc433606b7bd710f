/**
 * The validation gate in front of invoice creation: the rule table of the
 * store action, the part of the framework's rule engine those rules use,
 * and the attributes a valid request produces.
 *
 * The engine follows the framework: the rules of one attribute run in
 * order; a rule other than `required` is skipped when the attribute is
 * absent, blank, or null under `nullable`; after a failed `required` no
 * further rule of that attribute runs; every attribute is checked, so all
 * failures are reported together.
 */
module Validation {
  import opened Wrappers
  import opened Invoices

  /** A request value as it arrives in a JSON or form body. */
  datatype Value = Null | Bool(b: bool) | Num(n: int) | Str(s: string) | List(items: seq<Value>)

  /** A request body: attribute name to value; a name not in the map is absent. */
  type Input = map<string, Value>

  /**
   * The `date` rule and the `datetime` cast share one parser, left abstract:
   * the time a value denotes, or None when it denotes none.
   */
  type DateParser = Value -> Option<Time>

  /** The rules the store action uses. */
  datatype Rule = Required | IsString | Max(limit: nat) | Nullable | In(options: seq<string>) | Date

  /** The rule table of the store action, one entry per attribute. */
  const Rules: map<string, seq<Rule>> := map[
    "invoice_number" := [Required, IsString],
    "customer_name" := [Required, IsString],
    "title" := [Required, IsString, Max(255)],
    "description" := [Nullable, IsString],
    "status" := [Required, In(StatusNames)],
    "due_date" := [Nullable, Date]
  ]

  /** The attributes the table validates are exactly the attributes the model lets a caller fill. */
  lemma RulesCoverFillable()
    ensures Rules.Keys == Fillable
  {
  }

  /** The characters PHP's `trim` removes. */
  predicate Trimmable(c: char)
  {
    c == ' ' || c == '\t' || c == '\n' || c == '\r' || c == '\0' || c == '\U{0B}'
  }

  /** A string that is empty once trimmed. */
  predicate Blank(s: string)
  {
    forall i :: 0 <= i < |s| ==> Trimmable(s[i])
  }

  function DigitChar(d: nat): (c: char)
    requires d < 10
    ensures '0' <= c <= '9'
  {
    "0123456789"[d]
  }

  /** The decimal digits of a natural number, most significant first. */
  function Digits(n: nat): (r: string)
    ensures |r| > 0
    ensures forall i :: 0 <= i < |r| ==> '0' <= r[i] <= '9'
    decreases n
  {
    if n < 10 then [DigitChar(n)] else Digits(n / 10) + [DigitChar(n % 10)]
  }

  /** PHP's conversion of an integer to a string. */
  function Decimal(n: int): string
  {
    if n < 0 then "-" + Digits(-n) else Digits(n)
  }

  /** No integer converts to the name of a status. */
  lemma DecimalIsNoStatus(n: int)
    ensures Decimal(n) !in StatusNames
  {
    var d := Decimal(n);
    assert d[0] == '-' || '0' <= d[0] <= '9';
    forall name | name in StatusNames
      ensures d != name
    {
      assert 'a' <= name[0] <= 'z';
    }
  }

  /** Every status name is text that `required` accepts. */
  lemma StatusNamesFilled()
    ensures forall name :: name in StatusNames ==> !Blank(name)
  {
    forall name | name in StatusNames
      ensures !Blank(name)
    {
      assert !Trimmable(name[0]);
    }
  }

  /** PHP's conversion of a scalar to a string; an array has none. */
  function AsText(v: Value): Option<string>
  {
    match v
    case Null => Some("")
    case Bool(b) => Some(if b then "1" else "")
    case Num(n) => Some(Decimal(n))
    case Str(s) => Some(s)
    case List(_) => None
  }

  /** The size `max` compares: the element count of an array, else the length of the text. */
  function Size(v: Value): nat
  {
    if v.List? then |v.items| else |AsText(v).value|
  }

  /** What `required` demands: not null, not blank text, not an empty array. */
  predicate Filled(v: Value)
  {
    match v
    case Null => false
    case Str(s) => !Blank(s)
    case List(items) => |items| > 0
    case _ => true
  }

  /** Whether value `v` passes rule `r`. */
  predicate Passes(r: Rule, v: Value, parse: DateParser)
  {
    match r
    case Required => Filled(v)
    case IsString => v.Str?
    case Max(limit) => Size(v) <= limit
    case Nullable => true
    case In(options) => AsText(v).Some? && AsText(v).value in options
    case Date => (v.Str? || v.Num?) && parse(v).Some?
  }

  /** The value an attribute has, null when absent. */
  function Get(input: Input, key: string): Value
  {
    if key in input then input[key] else Null
  }

  /** Whether rule `r` of an attribute with rules `rules` runs at all. */
  predicate Runs(r: Rule, rules: seq<Rule>, input: Input, key: string)
  {
    r.Required? ||
    (key in input
     && !(input[key].Str? && Blank(input[key].s))
     && !(Nullable in rules && input[key].Null?))
  }

  /** The failed rules among `pending`, the still unchecked tail of the attribute's rules `rules`. */
  function Failed(pending: seq<Rule>, rules: seq<Rule>, input: Input, key: string, parse: DateParser): (r: seq<Rule>)
    ensures forall i :: 0 <= i < |r| ==> r[i] in pending
    decreases |pending|
  {
    if pending == [] then []
    else if Runs(pending[0], rules, input, key) && !Passes(pending[0], Get(input, key), parse) then
      if pending[0].Required? then [pending[0]]
      else [pending[0]] + Failed(pending[1..], rules, input, key, parse)
    else Failed(pending[1..], rules, input, key, parse)
  }

  /** The failed rules of one attribute of the table. */
  function FieldErrors(input: Input, key: string, parse: DateParser): seq<Rule>
    requires key in Rules
  {
    Failed(Rules[key], Rules[key], input, key, parse)
  }

  /** The error bag: each attribute with at least one failed rule, and its failed rules. */
  function Errors(input: Input, parse: DateParser): map<string, seq<Rule>>
  {
    map key | key in Rules && FieldErrors(input, key, parse) != [] :: FieldErrors(input, key, parse)
  }

  // The rule table restated attribute by attribute, without the engine.

  /** The attribute carries a value that counts as given: present, not null, not blank text. */
  predicate Provided(input: Input, key: string)
  {
    key in input && !input[key].Null? && !(input[key].Str? && Blank(input[key].s))
  }

  /** The attribute is present as non-blank text. */
  predicate FilledString(input: Input, key: string)
  {
    key in input && input[key].Str? && !Blank(input[key].s)
  }

  /** What each attribute of the table demands. */
  predicate FieldOk(input: Input, key: string, parse: DateParser)
  {
    if key == "invoice_number" || key == "customer_name" then FilledString(input, key)
    else if key == "title" then FilledString(input, key) && |input[key].s| <= 255
    else if key == "status" then key in input && input[key].Str? && input[key].s in StatusNames
    else if key == "description" then !Provided(input, key) || input[key].Str?
    else if key == "due_date" then
      !Provided(input, key) || ((input[key].Str? || input[key].Num?) && parse(input[key]).Some?)
    else true
  }

  /** A request the store action accepts. */
  predicate Acceptable(input: Input, parse: DateParser)
  {
    && FieldOk(input, "invoice_number", parse)
    && FieldOk(input, "customer_name", parse)
    && FieldOk(input, "title", parse)
    && FieldOk(input, "description", parse)
    && FieldOk(input, "status", parse)
    && FieldOk(input, "due_date", parse)
  }

  /** The engine and the restated table agree, attribute by attribute. */
  lemma FieldErrorsMeanFieldFails(input: Input, key: string, parse: DateParser)
    requires key in Rules
    ensures FieldErrors(input, key, parse) == [] <==> FieldOk(input, key, parse)
  {
    var v := Get(input, key);
    var rules := Rules[key];
    if key == "invoice_number" || key == "customer_name" {
      assert rules[1..] == [IsString] && rules[1..][1..] == [];
    } else if key == "title" {
      assert rules[1..] == [IsString, Max(255)] && rules[1..][1..] == [Max(255)];
      assert rules[1..][1..][1..] == [];
    } else if key == "status" {
      StatusErrors(input, parse);
    } else {
      assert rules[1..] == [rules[1]] && rules[1..][1..] == [];
    }
  }

  /** `required` then `in`: the status must be present as one of the five names. */
  lemma StatusErrors(input: Input, parse: DateParser)
    ensures FieldErrors(input, "status", parse) == [] <==> FieldOk(input, "status", parse)
  {
    var rules := Rules["status"];
    assert rules == [Required, In(StatusNames)] && rules[1..] == [In(StatusNames)] && rules[1..][1..] == [];
    assert Nullable !in rules;
    var v := Get(input, "status");
    if Passes(Required, v, parse) {
      assert "status" in input;
      match v
      case Str(s) =>
        StatusNamesFilled();
        assert !Blank(s);
      case Num(n) =>
        DecimalIsNoStatus(n);
        assert !Passes(In(StatusNames), v, parse);
        assert Failed(rules[1..], rules, input, "status", parse) == [In(StatusNames)];
      case Bool(b) =>
        assert "" !in StatusNames && "1" !in StatusNames;
        assert !Passes(In(StatusNames), v, parse);
        assert Failed(rules[1..], rules, input, "status", parse) == [In(StatusNames)];
      case List(_) =>
      case Null =>
    } else {
      StatusNamesFilled();
    }
  }

  /** A required attribute that is absent is reported, with `required` as its only failure. */
  lemma AbsentRequiredReported(input: Input, key: string, parse: DateParser)
    requires key in {"invoice_number", "customer_name", "title", "status"}
    requires key !in input
    ensures key in Errors(input, parse) && Errors(input, parse)[key] == [Required]
  {
  }

  /** A request with nothing in it is reported on its four required attributes, each with `required`. */
  lemma EmptyRequestReported(parse: DateParser)
    ensures Errors(map[], parse) ==
      map["invoice_number" := [Required], "customer_name" := [Required],
          "title" := [Required], "status" := [Required]]
  {
  }

  /** The request with only the attributes the table names, as the validator hands it on. */
  function Validated(input: Input): (attrs: Input)
    ensures forall key :: key in attrs <==> key in input && key in Rules
    ensures forall key :: key in attrs ==> attrs[key] == input[key]
  {
    map key | key in input && key in Rules :: input[key]
  }

  /** Whether a request is accepted depends only on the attributes the table names. */
  lemma AcceptableOnlyReadsRules(input: Input, parse: DateParser)
    ensures Acceptable(input, parse) <==> Acceptable(Validated(input), parse)
  {
  }

  /**
   * Mass assignment and casting: the fillable attributes of a validated
   * request become the invoice's fields; `status` becomes a status and
   * `due_date` a time; a blank or null optional value becomes null.
   */
  function Fill(attrs: Input, parse: DateParser): Attributes
    requires Acceptable(attrs, parse)
  {
    Attributes(
      attrs["invoice_number"].s,
      attrs["customer_name"].s,
      attrs["title"].s,
      if Provided(attrs, "description") then Some(attrs["description"].s) else None,
      ParseStatus(attrs["status"].s).value,
      if Provided(attrs, "due_date") then parse(attrs["due_date"]) else None)
  }

  /** The attributes echo the request: its texts, its status by name, its due date as parsed. */
  predicate Echoes(input: Input, parse: DateParser, a: Attributes)
  {
    && ("invoice_number" in input && input["invoice_number"] == Str(a.invoiceNumber))
    && ("customer_name" in input && input["customer_name"] == Str(a.customerName))
    && ("title" in input && input["title"] == Str(a.title) && |a.title| <= 255)
    && ("status" in input && input["status"] == Str(StatusName(a.status)))
    && (a.description.Some? <==> Provided(input, "description"))
    && (a.description.Some? ==> input["description"] == Str(a.description.value))
    && (a.dueDate.Some? <==> Provided(input, "due_date"))
    && (a.dueDate.Some? ==> parse(input["due_date"]) == a.dueDate)
  }

  /** The error bag names exactly the attributes whose demands fail. */
  lemma ErrorsNameFailingFields(input: Input, parse: DateParser)
    ensures forall key :: key in Errors(input, parse) <==> key in Rules && !FieldOk(input, key, parse)
  {
    forall key | key in Rules
      ensures key in Errors(input, parse) <==> !FieldOk(input, key, parse)
    {
      FieldErrorsMeanFieldFails(input, key, parse);
    }
  }

  lemma AcceptableCoversRules(input: Input, key: string, parse: DateParser)
    requires Acceptable(input, parse) && key in Rules
    ensures FieldOk(input, key, parse)
  {
  }

  /** The error bag is empty exactly when the request is acceptable. */
  lemma NoErrorsMeansAcceptable(input: Input, parse: DateParser)
    ensures Errors(input, parse) == map[] <==> Acceptable(input, parse)
  {
    if Acceptable(input, parse) {
      AcceptableHasNoErrors(input, parse);
    } else {
      UnacceptableHasErrors(input, parse);
    }
  }

  lemma AcceptableHasNoErrors(input: Input, parse: DateParser)
    requires Acceptable(input, parse)
    ensures Errors(input, parse) == map[]
  {
    ErrorsNameFailingFields(input, parse);
    var errors := Errors(input, parse);
    forall key | key in Rules
      ensures key !in errors
    {
      AcceptableCoversRules(input, key, parse);
    }
    assert errors.Keys == {};
  }

  lemma UnacceptableHasErrors(input: Input, parse: DateParser)
    requires !Acceptable(input, parse)
    ensures Errors(input, parse) != map[]
  {
    ErrorsNameFailingFields(input, parse);
    var errors := Errors(input, parse);
    var key :=
      if !FieldOk(input, "invoice_number", parse) then "invoice_number"
      else if !FieldOk(input, "customer_name", parse) then "customer_name"
      else if !FieldOk(input, "title", parse) then "title"
      else if !FieldOk(input, "description", parse) then "description"
      else if !FieldOk(input, "status", parse) then "status"
      else "due_date";
    assert key in Rules && !FieldOk(input, key, parse);
    assert key in errors;
  }

  /** Filling from an accepted request yields attributes that echo it. */
  lemma FillEchoes(input: Input, parse: DateParser)
    requires Acceptable(input, parse)
    ensures Acceptable(Validated(input), parse)
    ensures Echoes(input, parse, Fill(Validated(input), parse))
  {
  }

  /**
   * The store action's validation: the attributes to store when every rule
   * passes, otherwise the error bag, which names exactly the failing
   * attributes, each with at least one failed rule.
   */
  function Validate(input: Input, parse: DateParser): (r: Result<Attributes, map<string, seq<Rule>>>)
    ensures r.Success? <==> Acceptable(input, parse)
    ensures r.Success? ==> Echoes(input, parse, r.value)
    ensures r.Failure? ==> r.error != map[]
    ensures r.Failure? ==> forall key :: key in r.error <==> key in Rules && !FieldOk(input, key, parse)
    ensures r.Failure? ==> forall key :: key in r.error ==> r.error[key] != []
  {
    ErrorsNameFailingFields(input, parse);
    NoErrorsMeansAcceptable(input, parse);
    var errors := Errors(input, parse);
    if errors == map[] then
      FillEchoes(input, parse);
      Success(Fill(Validated(input), parse))
    else
      Failure(errors)
  }

  /** With every other attribute acceptable, a title is accepted exactly up to 255 characters. */
  lemma TitleLengthLimit(input: Input, title: string, parse: DateParser)
    requires Acceptable(input, parse)
    requires !Blank(title)
    ensures Acceptable(input["title" := Str(title)], parse) <==> |title| <= 255
  {
  }

  /** With every other attribute acceptable, a status text is accepted exactly when it is one of the five names. */
  lemma StatusChoice(input: Input, name: string, parse: DateParser)
    requires Acceptable(input, parse)
    ensures Acceptable(input["status" := Str(name)], parse) <==> name in StatusNames
  {
  }

  /** An attribute outside the fillable set, `id` and the timestamps among them, changes nothing. */
  lemma UnfillableKeysIgnored(input: Input, key: string, v: Value, parse: DateParser)
    requires key !in Fillable
    ensures Validate(input[key := v], parse) == Validate(input, parse)
  {
    RulesCoverFillable();
    var input' := input[key := v];
    assert Validated(input') == Validated(input);
    forall k | k in Rules
      ensures FieldErrors(input', k, parse) == FieldErrors(input, k, parse)
    {
      FieldErrorsFromOwnValue(input', input, k, parse);
    }
    assert Errors(input', parse) == Errors(input, parse);
  }

  /** The key and the timestamps sent in a request change nothing. */
  lemma ManagedKeysIgnored(input: Input, key: string, v: Value, parse: DateParser)
    requires key in Managed
    ensures Validate(input[key := v], parse) == Validate(input, parse)
  {
    ManagedNotFillable();
    UnfillableKeysIgnored(input, key, v, parse);
  }

  /** The failures of an attribute depend on that attribute's value alone. */
  lemma FieldErrorsFromOwnValue(input: Input, input': Input, key: string, parse: DateParser)
    requires key in Rules
    requires (key in input <==> key in input') && (key in input ==> input[key] == input'[key])
    ensures FieldErrors(input, key, parse) == FieldErrors(input', key, parse)
  {
    FailedFromOwnValue(Rules[key], Rules[key], input, input', key, parse);
  }

  lemma {:induction false} FailedFromOwnValue(pending: seq<Rule>, rules: seq<Rule>, input: Input, input': Input, key: string, parse: DateParser)
    requires (key in input <==> key in input') && (key in input ==> input[key] == input'[key])
    ensures Failed(pending, rules, input, key, parse) == Failed(pending, rules, input', key, parse)
    decreases |pending|
  {
    if pending != [] {
      FailedFromOwnValue(pending[1..], rules, input, input', key, parse);
    }
  }
}
