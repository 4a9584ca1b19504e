/** The job-creation form: field edits, the skill check-boxes that toggle an
    id in `skills_required`, the submit guard, and today's date as the
    minimum application deadline. */
module CreateJobForm {

  import opened Common
  import opened Numerals

  datatype JobForm = JobForm(
    title: string,
    description: string,
    openPositions: string,
    location: string,
    employmentType: string,
    salaryRange: string,
    applicationDeadline: string,
    skillsRequired: seq<Id>)

  const InitialForm: JobForm := JobForm("", "", "", "", "", "", "", [])

  /** The `name` attributes of the form's text inputs and selects. */
  datatype TextField = Title | Description | OpenPositions | Location | EmploymentType | SalaryRange | ApplicationDeadline

  function Get(form: JobForm, field: TextField): string {
    match field
    case Title => form.title
    case Description => form.description
    case OpenPositions => form.openPositions
    case Location => form.location
    case EmploymentType => form.employmentType
    case SalaryRange => form.salaryRange
    case ApplicationDeadline => form.applicationDeadline
  }

  /** `handleChange`: `{ ...prev, [name]: value }`. */
  function HandleChange(form: JobForm, name: TextField, value: string): (r: JobForm)
    ensures Get(r, name) == value
    ensures forall f :: f != name ==> Get(r, f) == Get(form, f)
    ensures r.skillsRequired == form.skillsRequired
  {
    match name
    case Title => form.(title := value)
    case Description => form.(description := value)
    case OpenPositions => form.(openPositions := value)
    case Location => form.(location := value)
    case EmploymentType => form.(employmentType := value)
    case SalaryRange => form.(salaryRange := value)
    case ApplicationDeadline => form.(applicationDeadline := value)
  }

  /** Number of occurrences of `x` in `s`. */
  function Count(s: seq<Id>, x: Id): nat
    decreases |s|
  {
    if s == [] then 0 else (if s[0] == x then 1 else 0) + Count(s[1..], x)
  }

  predicate NoDuplicates(s: seq<Id>) {
    forall i, j :: 0 <= i < j < |s| ==> s[i] != s[j]
  }

  /** `x => x !== id` */
  function NotEqual(id: Id): Id -> bool {
    x => x != id
  }

  /** The skill list without any occurrence of `id`. */
  function Without(s: seq<Id>, id: Id): (r: seq<Id>)
    ensures id !in r
    ensures forall x :: x != id ==> (x in r <==> x in s)
    ensures IsSubsequence(r, s)
    ensures |r| == |s| - Count(s, id)
  {
    FilterIsSubsequence(s, NotEqual(id));
    FilterDropsCount(s, id);
    Filter(s, NotEqual(id))
  }

  lemma {:induction false} FilterDropsCount(s: seq<Id>, id: Id)
    ensures |Filter(s, NotEqual(id))| == |s| - Count(s, id)
    decreases |s|
  {
    if s != [] {
      FilterDropsCount(s[1..], id);
    }
  }

  /** The new `skills_required` after clicking the check-box of `id`: a selected
      id is removed everywhere, an unselected one is appended at the end. */
  function ToggleSkill(skills: seq<Id>, id: Id): (r: seq<Id>)
    ensures id in skills ==> r == Without(skills, id)
    ensures id !in skills ==> r == skills + [id]
    ensures id in r <==> id !in skills
    ensures forall x :: x != id ==> (x in r <==> x in skills)
  {
    if id in skills then Without(skills, id) else skills + [id]
  }

  /** `handleSkillChange`: only `skills_required` changes. */
  function HandleSkillChange(form: JobForm, id: Id): (r: JobForm)
    ensures forall f :: Get(r, f) == Get(form, f)
    ensures id in r.skillsRequired <==> id !in form.skillsRequired
    ensures forall x :: x != id ==> (x in r.skillsRequired <==> x in form.skillsRequired)
  {
    form.(skillsRequired := ToggleSkill(form.skillsRequired, id))
  }

  lemma {:induction false} FilterKeepsAll(s: seq<Id>, id: Id)
    requires id !in s
    ensures Filter(s, NotEqual(id)) == s
    decreases |s|
  {
    if s != [] {
      FilterKeepsAll(s[1..], id);
    }
  }

  /** Clicking an unselected skill twice gives back exactly the list it started from. */
  lemma ToggleTwiceUnselected(skills: seq<Id>, id: Id)
    requires id !in skills
    ensures ToggleSkill(ToggleSkill(skills, id), id) == skills
  {
    FilterAppend(skills, [id], NotEqual(id));
    FilterKeepsAll(skills, id);
    assert Filter([id], NotEqual(id)) == [];
  }

  /** Clicking a selected skill twice keeps the same skills selected, with `id`
      now once, at the end, after the others in their original order. */
  lemma ToggleTwiceSelected(skills: seq<Id>, id: Id)
    requires id in skills
    ensures ToggleSkill(ToggleSkill(skills, id), id) == Without(skills, id) + [id]
    ensures forall x :: x in ToggleSkill(ToggleSkill(skills, id), id) <==> x in skills
  {
  }

  lemma {:induction false} FilterNoDuplicates(s: seq<Id>, id: Id)
    requires NoDuplicates(s)
    ensures NoDuplicates(Filter(s, NotEqual(id)))
    decreases |s|
  {
    if s != [] {
      FilterNoDuplicates(s[1..], id);
      var rest := Filter(s[1..], NotEqual(id));
      assert s[0] !in rest;
    }
  }

  /** A list without repeated ids never gets one by toggling. */
  lemma ToggleKeepsNoDuplicates(skills: seq<Id>, id: Id)
    requires NoDuplicates(skills)
    ensures NoDuplicates(ToggleSkill(skills, id))
  {
    if id in skills {
      FilterNoDuplicates(skills, id);
    }
  }

  /** `handleSubmit`: `onSubmit(formData)` is called only with a skill selected. */
  function HandleSubmit(form: JobForm): (submitted: Option<JobForm>)
    ensures submitted.Some? <==> |form.skillsRequired| > 0
    ensures submitted.Some? ==> submitted.value == form
  {
    if |form.skillsRequired| == 0 then None else Some(form)
  }

  lemma FourDigitYear(year: nat)
    ensures 1000 <= year <= 9999 ==> |NatToString(year)| == 4
  {
    if 1000 <= year <= 9999 {
      assert Pow10(1) == 10 && Pow10(2) == 100 && Pow10(3) == 1000 && Pow10(4) == 10000;
      NatToStringLength(year, 4);
    }
  }

  /** `String(n).padStart(2, '0')` */
  function PadStart2(s: string): string {
    if |s| >= 2 then s else seq(2 - |s|, _ => '0') + s
  }

  /** For 1..99, padding to two digits gives two digits that still read as the number. */
  lemma TwoDigits(n: nat)
    requires 1 <= n <= 99
    ensures var p := PadStart2(NatToString(n));
            |p| == 2 && (forall i :: 0 <= i < 2 ==> '0' <= p[i] <= '9') && DigitsValue(p) == n
  {
    NatToStringRoundTrip(n);
    if n < 10 {
      var p := PadStart2(NatToString(n));
      assert p == ['0', NatToString(n)[0]];
      assert p[..1] == ['0'];
    } else {
      NatToStringLength(n, 2);
    }
  }

  /** `date` is `Y-MM-DD` with a year of `yearLength` digits: digits everywhere
      except the two dashes. */
  predicate DateShape(date: string, yearLength: nat) {
    && |date| == yearLength + 6
    && date[yearLength] == '-' && date[yearLength + 3] == '-'
    && (forall i :: 0 <= i < |date| && i != yearLength && i != yearLength + 3 ==> '0' <= date[i] <= '9')
  }

  /** The three digit groups of such a date read as `year`, `month` and `day`. */
  predicate DateReads(date: string, yearLength: nat, year: nat, month: nat, day: nat)
    requires DateShape(date, yearLength)
  {
    && DigitsValue(date[..yearLength]) == year
    && DigitsValue(date[yearLength + 1..yearLength + 3]) == month
    && DigitsValue(date[yearLength + 4..]) == day
  }

  /** `getCurrentDate`, given the fields `new Date()` would supply:
      the full year, the 0-based month index and the day of the month.
      The month is written 1-based; month and day are padded to two digits. */
  function CurrentDate(year: nat, monthIndex: nat, day: nat): (date: string)
    requires monthIndex <= 11 && 1 <= day <= 31
    ensures DateShape(date, |NatToString(year)|)
    ensures DateReads(date, |NatToString(year)|, year, monthIndex + 1, day)
    ensures 1000 <= year <= 9999 ==> |date| == 10
  {
    var ys := NatToString(year);
    var ms := PadStart2(NatToString(monthIndex + 1));
    var ds := PadStart2(NatToString(day));
    NatToStringRoundTrip(year);
    TwoDigits(monthIndex + 1);
    TwoDigits(day);
    FourDigitYear(year);
    DateLayout(ys, ms, ds);
    ys + "-" + ms + "-" + ds
  }

  /** Where the three parts sit in `y-m-d` when month and day have two characters. */
  lemma DateLayout(ys: string, ms: string, ds: string)
    requires |ms| == 2 && |ds| == 2
    requires forall i :: 0 <= i < |ys| ==> '0' <= ys[i] <= '9'
    requires forall i :: 0 <= i < 2 ==> '0' <= ms[i] <= '9' && '0' <= ds[i] <= '9'
    ensures var date := ys + "-" + ms + "-" + ds;
      && DateShape(date, |ys|)
      && date[..|ys|] == ys && date[|ys| + 1..|ys| + 3] == ms && date[|ys| + 4..] == ds
  {
    var date := ys + "-" + ms + "-" + ds;
    assert date[..|ys|] == ys;
    assert date[|ys| + 1..|ys| + 3] == ms;
    assert date[|ys| + 4..] == ds;
    forall i | 0 <= i < |date| && i != |ys| && i != |ys| + 3
      ensures '0' <= date[i] <= '9'
    {
      if i < |ys| {
        assert date[i] == ys[i];
      } else if i < |ys| + 3 {
        assert date[i] == ms[i - |ys| - 1];
      } else {
        assert date[i] == ds[i - |ys| - 4];
      }
    }
  }
}
