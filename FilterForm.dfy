/** The student-profile form: the exam choice drives the course list and the
    budget slider's range, and the search is only sent with a positive
    rank. */
module FilterForm {
  import opened Strings

  datatype Exam = JEE | NEET | CUET

  /** A budget slider's range, step and the value it is reset to. */
  datatype Preset = Preset(min: int, max: int, step: int, defaultMax: int)

  /** `BUDGET_PRESETS` */
  function BudgetPreset(e: Exam): Preset {
    match e
    case JEE => Preset(10000, 800000, 10000, 300000)
    case NEET => Preset(5000, 2000000, 25000, 500000)
    case CUET => Preset(3000, 700000, 5000, 100000)
  }

  /** `COURSES` */
  function Courses(e: Exam): (cs: seq<string>)
    ensures |cs| >= 1
  {
    match e
    case JEE => ["BTech"]
    case NEET => ["MBBS"]
    case CUET => ["BA", "BBA"]
  }

  /** Every preset's reset value lies inside its own slider range. */
  lemma PresetsConsistent(e: Exam)
    ensures var p := BudgetPreset(e); 0 < p.min <= p.defaultMax <= p.max && p.step > 0
  {
  }

  /** What JavaScript's `Number` gives for the rank text: a number, or NaN
      for text that does not read as one. */
  datatype JsNumber = NaN | Num(value: real)

  /** `n <= 0`: false for NaN, as every comparison with NaN is. */
  predicate AtMostZero(n: JsNumber) {
    n.Num? && n.value <= 0.0
  }

  /** The preferences handed to `onSubmit`. */
  datatype Submission = Submission(exam: Exam, rank: JsNumber, budgetMin: int, budgetMax: int,
                                   state: string, course: string, collegeType: string)

  class Form {
    var exam: Exam
    var rank: string
    var budgetMax: seq<int>
    var state: string
    var course: string
    var collegeType: string

    /** The slider holds one value inside the current exam's range, and the
        course is one the current exam offers. */
    predicate Valid()
      reads this
    {
      var p := BudgetPreset(exam);
      |budgetMax| == 1 && p.min <= budgetMax[0] <= p.max && course in Courses(exam)
    }

    /** The state a fresh form starts in. */
    constructor ()
      ensures Valid()
      ensures exam == JEE && rank == "" && course == Courses(JEE)[0]
      ensures budgetMax == [BudgetPreset(JEE).defaultMax]
      ensures state == "Any" && collegeType == "Any"
    {
      exam := JEE;
      rank := "";
      budgetMax := [300000];
      state := "Any";
      course := Courses(JEE)[0];
      collegeType := "Any";
    }

    /** `handleExamChange`: the first course of the new exam and its default
        budget; rank, state and college type are kept. */
    method HandleExamChange(e: Exam)
      modifies this
      requires Valid()
      ensures Valid()
      ensures exam == e && course == Courses(e)[0] && budgetMax == [BudgetPreset(e).defaultMax]
      ensures rank == old(rank) && state == old(state) && collegeType == old(collegeType)
    {
      exam := e;
      course := Courses(e)[0];
      budgetMax := [BudgetPreset(e).defaultMax];
      PresetsConsistent(e);
    }

    /** The rank box's `onChange`. */
    method SetRank(text: string)
      modifies this
      requires Valid()
      ensures Valid()
      ensures rank == text
      ensures exam == old(exam) && budgetMax == old(budgetMax) && state == old(state)
      ensures course == old(course) && collegeType == old(collegeType)
    {
      rank := text;
    }

    /** The slider's `onValueChange`: the slider only produces one value
        inside its range. */
    method SetBudget(values: seq<int>)
      modifies this
      requires Valid()
      requires |values| == 1 && BudgetPreset(exam).min <= values[0] <= BudgetPreset(exam).max
      ensures Valid()
      ensures budgetMax == values
      ensures exam == old(exam) && rank == old(rank) && state == old(state)
      ensures course == old(course) && collegeType == old(collegeType)
    {
      budgetMax := values;
    }

    /** The course select's `onValueChange`: it lists the exam's courses. */
    method SetCourse(c: string)
      modifies this
      requires Valid() && c in Courses(exam)
      ensures Valid()
      ensures course == c
      ensures exam == old(exam) && rank == old(rank) && budgetMax == old(budgetMax)
      ensures state == old(state) && collegeType == old(collegeType)
    {
      course := c;
    }

    /** The state and college-type selects' `onValueChange`. */
    method SetPlace(newState: string, newType: string)
      modifies this
      requires Valid()
      ensures Valid()
      ensures state == newState && collegeType == newType
      ensures exam == old(exam) && rank == old(rank) && budgetMax == old(budgetMax) && course == old(course)
    {
      state := newState;
      collegeType := newType;
    }

    /** The button's `disabled` expression: no rank, a rank that is not
        positive, or a request already running. */
    predicate ButtonDisabled(number: string -> JsNumber, isLoading: bool)
      reads this
    {
      rank == "" || AtMostZero(number(rank)) || isLoading
    }

    /** `handleSubmit`: nothing is sent exactly when the button would be
        disabled with no request running; otherwise one submission with a
        zero minimum budget, the slider's value as the maximum and the
        form's current choices. `Number` is the parameter `number`. */
    method HandleSubmit(number: string -> JsNumber) returns (sent: Option<Submission>)
      requires Valid()
      ensures sent.None? <==> ButtonDisabled(number, false)
      ensures sent.Some? ==> sent.value == Submission(exam, number(rank), 0, budgetMax[0], state, course, collegeType)
      ensures sent.Some? ==> BudgetPreset(exam).min <= sent.value.budgetMax <= BudgetPreset(exam).max
    {
      if rank == "" || AtMostZero(number(rank)) {
        return None;
      }
      sent := Some(Submission(exam, number(rank), 0, budgetMax[0], state, course, collegeType));
    }
  }

  /** A rank text that reads as NaN gets past the guard: NaN is not at most
      zero, so `handleSubmit` sends a submission whose rank is NaN. */
  method NaNRankPasses(f: Form, number: string -> JsNumber) returns (sent: Option<Submission>)
    requires f.Valid() && f.rank != "" && number(f.rank) == NaN
    ensures sent.Some? && sent.value.rank == NaN
    ensures sent.value.budgetMin == 0 && sent.value.budgetMax == f.budgetMax[0]
  {
    sent := f.HandleSubmit(number);
  }
}
