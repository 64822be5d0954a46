/** Admission of forget schedules: the schema, and the webhook with its sum of six machine integers. */
module Admission {
  import opened Options
  import opened ForgetSpecs
  import opened ForgetScript
  import opened Shell

  const TWO_63 := 0x8000_0000_0000_0000
  const TWO_64 := 0x1_0000_0000_0000_0000

  /** Two's complement wrap-around of a 64-bit integer. */
  function Wrap(n: int): int {
    (n + TWO_63) % TWO_64 - TWO_63
  }

  predicate IsInt64(n: int) {
    -TWO_63 <= n < TWO_63
  }

  /** The sum as the machine adds it up, from left to right. */
  function MachineSum(spec: ForgetSpec): int {
    Wrap(Wrap(Wrap(Wrap(Wrap(spec.keepLast + spec.keepHourly) + spec.keepDaily) + spec.keepWeekly) + spec.keepMonthly)
         + spec.keepYearly)
  }

  function TrueSum(spec: ForgetSpec): int {
    spec.keepLast + spec.keepHourly + spec.keepDaily + spec.keepWeekly + spec.keepMonthly + spec.keepYearly
  }

  datatype Verdict = Admitted | BadSchedule | NothingKept

  /** `parses` is what the cron library makes of an expression. */
  function Validate(spec: ForgetSpec, parses: string -> bool): Verdict {
    if !parses(spec.schedule) then BadSchedule
    else if MachineSum(spec) == 0 then NothingKept
    else Admitted
  }

  /** An omitted value is 0; one that is given is at least 1. */
  predicate Counts(n: int) {
    0 <= n < TWO_63
  }

  predicate SchemaValid(spec: ForgetSpec) {
    && |spec.schedule| >= 9 && |spec.repository| >= 1 && 0 <= spec.checkPercentage <= 100
    && Counts(spec.keepLast) && Counts(spec.keepHourly) && Counts(spec.keepDaily)
    && Counts(spec.keepWeekly) && Counts(spec.keepMonthly) && Counts(spec.keepYearly)
  }

  predicate KeepsSomething(r: Request) {
    r.last > 0 || r.hourly > 0 || r.daily > 0 || r.weekly > 0 || r.monthly > 0 || r.yearly > 0
  }

  /** What the shell makes of the script that is rendered for the schedule. */
  function Rendered(spec: ForgetSpec): Option<Request> {
    match Commands(Script(spec))
    case Some(commands) => Parse(commands)
    case None => None
  }

  // ----- wrap-around -----

  lemma WrapIsCongruent(n: int) returns (k: int)
    ensures Wrap(n) == n - k * TWO_64 && IsInt64(Wrap(n))
  {
    k := (n + TWO_63) / TWO_64;
  }

  lemma Between(n: int, k: int)
    requires IsInt64(n - k * TWO_64)
    ensures Wrap(n) == n - k * TWO_64
  {
    var j := WrapIsCongruent(n);
    assert j == k;
  }

  /** Wrapping on the way makes no difference to a wrapped sum. */
  lemma WrapAbsorbs(a: int, b: int)
    ensures Wrap(Wrap(a) + b) == Wrap(a + b)
  {
    var j := WrapIsCongruent(a);
    var k := WrapIsCongruent(Wrap(a) + b);
    assert (a + b) - (j + k) * TWO_64 == Wrap(Wrap(a) + b);
    Between(a + b, j + k);
  }

  lemma MachineSumIsWrappedSum(spec: ForgetSpec)
    ensures MachineSum(spec) == Wrap(TrueSum(spec))
  {
    var two := spec.keepLast + spec.keepHourly;
    var three := two + spec.keepDaily;
    var four := three + spec.keepWeekly;
    var five := four + spec.keepMonthly;
    hide Wrap;
    WrapAbsorbs(two, spec.keepDaily);
    WrapAbsorbs(three, spec.keepWeekly);
    WrapAbsorbs(four, spec.keepMonthly);
    WrapAbsorbs(five, spec.keepYearly);
  }

  // ----- admission and rendering -----

  /**
    A schema-valid schedule with a valid cron expression is turned down exactly when it keeps nothing or its
    keep counts add up to 2^64 or 2^65.
   */
  lemma TurnedDownExactly(spec: ForgetSpec, parses: string -> bool)
    requires SchemaValid(spec) && parses(spec.schedule)
    ensures Validate(spec, parses) == NothingKept <==> TrueSum(spec) in {0, TWO_64, 2 * TWO_64}
    ensures Validate(spec, parses) != BadSchedule
  {
    MachineSumIsWrappedSum(spec);
    var sum := TrueSum(spec);
    var k := WrapIsCongruent(sum);
    hide Wrap;
    if Wrap(sum) == 0 { assert 0 <= k <= 2; } else { assert sum != 0 && sum != TWO_64 && sum != 2 * TWO_64; }
  }

  lemma RenderedIsRequest(spec: ForgetSpec)
    ensures Rendered(spec) == Some(RequestOf(spec))
  {
    ScriptRoundTrip(spec);
  }

  /** Everything that is admitted renders at least one flag that keeps snapshots. */
  lemma AdmittedKeepsSomething(spec: ForgetSpec, parses: string -> bool)
    requires SchemaValid(spec) && Validate(spec, parses) == Admitted
    ensures Rendered(spec).Some? && KeepsSomething(Rendered(spec).value)
  {
    hide MachineSum;
    TurnedDownExactly(spec, parses);
    hide Rendered;
    RenderedIsRequest(spec);
  }

  /**
    Hence, for a schema-valid schedule: it is admitted exactly when its expression is valid, the script
    rendered for it keeps something, and the keep counts do not add up to 2^64 or 2^65.
   */
  lemma AdmissionAgreesWithRendering(spec: ForgetSpec, parses: string -> bool)
    requires SchemaValid(spec)
    ensures Rendered(spec).Some?
    ensures Validate(spec, parses) == Admitted <==>
              parses(spec.schedule) && KeepsSomething(Rendered(spec).value) && TrueSum(spec) !in {TWO_64, 2 * TWO_64}
  {
    hide Rendered, MachineSum;
    RenderedIsRequest(spec);
    if parses(spec.schedule) { TurnedDownExactly(spec, parses); }
  }

  /** Both sums occur: schedules that keep a great deal are turned down as keeping nothing. */
  lemma WrappedAwayExamples(parses: string -> bool)
    requires parses("0 0 * * *")
    ensures var huge := ForgetSpec("0 0 * * *", "repo", false, 0, TWO_63 - 1, TWO_63 - 1, 2, 0, 0, 0);
            SchemaValid(huge) && Validate(huge, parses) == NothingKept
    ensures var huge := ForgetSpec("0 0 * * *", "repo", false, 0, TWO_63 - 1, TWO_63 - 1, TWO_63 - 1, TWO_63 - 1, 4, 0);
            SchemaValid(huge) && Validate(huge, parses) == NothingKept
  {
    TurnedDownExactly(ForgetSpec("0 0 * * *", "repo", false, 0, TWO_63 - 1, TWO_63 - 1, 2, 0, 0, 0), parses);
    TurnedDownExactly(ForgetSpec("0 0 * * *", "repo", false, 0, TWO_63 - 1, TWO_63 - 1, TWO_63 - 1, TWO_63 - 1, 4, 0), parses);
  }
}
