/** The weigh-in form shared by the weighing page and the home page: its values, its
    validator with the messages it shows, and the location taken from the query string. */
module FormSchema {
  import opened Base

  /** The form's text fields. The `photo` field is declared `any().optional()` but no
      input is bound to it, so it never holds a value. */
  datatype FormValues = FormValues(
    company: string,
    driverName: string,
    phoneNumber: string,
    weight: string,
    notes: string)

  /** The default values the form starts from and is reset to. */
  const Blank := FormValues("", "", "", "", "")

  datatype FormIssue = FormIssue(field: string, message: string)

  /** What the schema demands: a company, a name and a weight, and a phone number of
      at least ten characters; the notes are free. */
  predicate FormValid(v: FormValues)
  {
    |v.company| >= 1 && |v.driverName| >= 1 && |v.phoneNumber| >= 10 && |v.weight| >= 1
  }

  function Check(ok: bool, field: string, message: string): seq<FormIssue>
  {
    if ok then [] else [FormIssue(field, message)]
  }

  /** The validator: one issue per failing field, in field order, with its message. */
  function Validate(v: FormValues): (issues: seq<FormIssue>)
    ensures issues == [] <==> FormValid(v)
    ensures forall x :: x in issues ==> x.field in ["company", "driverName", "phoneNumber", "weight"]
    ensures FormIssue("company", "소속을 선택해주세요") in issues <==> |v.company| == 0
    ensures FormIssue("driverName", "이름을 입력해주세요") in issues <==> |v.driverName| == 0
    ensures FormIssue("phoneNumber", "전화번호를 입력해주세요") in issues <==> |v.phoneNumber| < 10
    ensures FormIssue("weight", "무게를 입력해주세요") in issues <==> |v.weight| == 0
  {
    var a := Check(|v.company| >= 1, "company", "소속을 선택해주세요");
    var b := Check(|v.driverName| >= 1, "driverName", "이름을 입력해주세요");
    var c := Check(|v.phoneNumber| >= 10, "phoneNumber", "전화번호를 입력해주세요");
    var d := Check(|v.weight| >= 1, "weight", "무게를 입력해주세요");
    assert forall x :: x in a + b + c + d <==> x in a || x in b || x in c || x in d;
    assert "company"[0] == 'c' && "driverName"[0] == 'd' && "phoneNumber"[0] == 'p' && "weight"[0] == 'w';
    a + b + c + d
  }

  /** The blank form fails every required field. */
  lemma BlankFailsEveryRequiredField()
    ensures |Validate(Blank)| == 4
    ensures !FormValid(Blank)
  {
  }

  /** A choice of the company select: its value and the text shown for it. */
  datatype SelectOption = SelectOption(value: string, shown: string)

  /** `params.get("location") || fallback`: a missing or empty parameter gives the fallback. */
  function LocationOrDefault(param: Option<string>, fallback: string): (loc: string)
    requires fallback != ""
    ensures loc != ""
    ensures param.Some? && param.value != "" ==> loc == param.value
    ensures param.None? || param.value == "" ==> loc == fallback
  {
    if param.Some? && param.value != "" then param.value else fallback
  }
}
