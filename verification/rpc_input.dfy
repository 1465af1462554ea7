/** RPC inputs and replies: the JSON values a procedure receives, the object schemas
    its inputs are checked against (zod's `z.object`), and the three ways a procedure
    call ends. */
module RpcInput {
  import opened Base
  import opened Decimal

  /** A JSON value as the procedure receives it; numbers have at most two fraction digits. */
  datatype Json = JString(str: string) | JNumber(num: Num) | JBool(flag: bool) | JNull

  /** A procedure's input object; a missing key is `undefined`. */
  type Input = map<string, Json>

  /** How a call ends: a result, a rejected input with the failing fields in schema
      order, or a storage failure carrying its message. */
  datatype Reply<T> = Done(value: T) | BadRequest(issues: seq<string>) | InternalError(message: string)

  /** A field's validator:
      `z.string()`, `z.string().min(1)`, `z.number()`, `z.string().optional()` and
      `z.number().min(lo)[.max(hi)].default(d)` with whole bounds. */
  datatype Check =
    | Str
    | NonEmptyStr
    | Number
    | OptStr
    | BoundedNumber(lo: int, hi: Option<int>, dflt: int)

  datatype Field = Field(name: string, check: Check)

  /** Whether the value under `f.name` passes `f.check`. `optional` and `default`
      admit a missing key but not `null`. */
  predicate IsStr(input: Input, k: string) { k in input && input[k].JString? }

  predicate IsNum(input: Input, k: string) { k in input && input[k].JNumber? }

  predicate IsOptStr(input: Input, k: string) { k !in input || input[k].JString? }

  /** A number at least `lo` and at most `hi`, or missing. */
  predicate IsOptNumIn(input: Input, k: string, lo: int, hi: Option<int>)
  {
    k !in input
    || (input[k].JNumber?
        && input[k].num.hundredths >= lo * 100
        && (hi.None? || input[k].num.hundredths <= hi.value * 100))
  }

  predicate Conforms(input: Input, f: Field)
  {
    var k := f.name;
    match f.check
    case Str => IsStr(input, k)
    case NonEmptyStr => IsStr(input, k) && |input[k].str| >= 1
    case Number => IsNum(input, k)
    case OptStr => IsOptStr(input, k)
    case BoundedNumber(lo, hi, _) => IsOptNumIn(input, k, lo, hi)
  }

  predicate Accepts(input: Input, schema: seq<Field>)
  {
    forall f :: f in schema ==> Conforms(input, f)
  }

  /** The fields `input` fails, as a predicate for `Filter`. */
  function Fails(input: Input): Field -> bool
  {
    (f: Field) => !Conforms(input, f)
  }

  function NameOf(f: Field): string { f.name }

  /** The names of the fields that fail their check, in schema order. */
  function Issues(input: Input, schema: seq<Field>): (issues: seq<string>)
    ensures forall k :: k in issues <==> exists f :: f in schema && f.name == k && !Conforms(input, f)
    ensures issues == [] <==> Accepts(input, schema)
    ensures |issues| <= |schema|
  {
    if schema == [] then []
    else
      var rest := Issues(input, schema[1..]);
      assert forall f :: f in schema <==> f == schema[0] || f in schema[1..];
      var issues := (if Conforms(input, schema[0]) then [] else [schema[0].name]) + rest;
      assert forall k :: k in rest ==> k in issues;
      issues
  }

  /** The issues are the names of the failing fields, in schema order. */
  lemma {:induction false} IssuesInSchemaOrder(input: Input, schema: seq<Field>)
    ensures Issues(input, schema) == MapSeq(Filter(schema, Fails(input)), NameOf)
  {
    if schema != [] {
      IssuesInSchemaOrder(input, schema[1..]);
      var failing := Filter(schema[1..], Fails(input));
      if !Conforms(input, schema[0]) {
        assert MapSeq([schema[0]] + failing, NameOf) == [schema[0].name] + MapSeq(failing, NameOf);
      }
    }
  }

  /** The text under `k`, which the schema has required to be a string. */
  function TextAt(input: Input, k: string): string
    requires k in input && input[k].JString?
  {
    input[k].str
  }

  /** An optional string: `undefined` becomes `None`. */
  function OptTextAt(input: Input, k: string): Option<string>
    requires k !in input || input[k].JString?
  {
    if k in input then Some(input[k].str) else None
  }

  /** A number with a default: `undefined` becomes the default. */
  function NumberOr(input: Input, k: string, dflt: int): Num
    requires k !in input || input[k].JNumber?
  {
    if k in input then input[k].num else Whole(dflt)
  }
}
