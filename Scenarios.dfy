/** Concrete calls and assignments, as the checker's tests and the
    checker's own branches describe them, with what the checker reports. */
module Scenarios {
  import opened Ast
  import opened Messages
  import opened DatetimeChecker

  /** `datetime.<attr>`: an attribute of the module (or class) `datetime`. */
  function OfDatetime(attr: string): Expr {
    Attribute(Name("datetime"), attr)
  }

  /** `timezone.utc`, the attribute argument the tests pass as a zone. */
  const Utc: Expr := Attribute(Name("timezone"), "utc")

  function Int(n: int): Expr {
    Const(IntC(n))
  }

  function Kw(name: string, value: Expr): Keyword {
    Keyword(Some(name), value)
  }

  /** A visit that reports exactly one message, on the call `node`. */
  function Fired(node: Expr, symbol: Symbol, args: seq<string>): Outcome {
    Emitted([Message(symbol, AtExpr(node), args)])
  }

  /** `timedelta(1)` and `datetime.timedelta(1)` are reported; the keyword
      form and an all-zero positional form are not; two nonzero arguments
      still give one message. */
  lemma TimedeltaScenarios()
    ensures var c := Call(Name("timedelta"), [Int(1)], []);
      CallOutcome(c) == Fired(c, TimedeltaNoKeywordArgs, [])
    ensures var c := Call(OfDatetime("timedelta"), [Int(1)], []);
      CallOutcome(c) == Fired(c, TimedeltaNoKeywordArgs, [])
    ensures var c := Call(Name("timedelta"), [Int(1), Int(2)], []);
      CallOutcome(c) == Fired(c, TimedeltaNoKeywordArgs, [])
    ensures var c := Call(Name("timedelta"), [Int(0), Const(FloatC(0.0)), Const(BoolC(false))], []);
      CallOutcome(c) == Emitted([])
    ensures CallOutcome(Call(Name("timedelta"), [], [Kw("seconds", Int(1))])) == Emitted([])
    ensures CallOutcome(Call(OfDatetime("timedelta"), [], [Kw("seconds", Int(1))])) == Emitted([])
    ensures CallOutcome(Call(Name("timedelta"), [Int(0)], [])) == Emitted([])
    ensures CallOutcome(Call(OfDatetime("timedelta"), [Int(0)], [])) == Emitted([])
  {
  }

  /** `timedelta(days)` and `timedelta(-1)` raise: a name and a unary
      operation have no `.value`. An earlier nonzero argument ends the scan
      before such an argument is reached. */
  lemma TimedeltaFaultScenarios()
    ensures CallOutcome(Call(Name("timedelta"), [Name("days")], [])) == Failed(ArgumentWithoutValue)
    ensures CallOutcome(Call(Name("timedelta"), [Other(false)], [])) == Failed(ArgumentWithoutValue)
    ensures CallOutcome(Call(Name("timedelta"), [Int(0), Name("days")], [])) == Failed(ArgumentWithoutValue)
    ensures var c := Call(Name("timedelta"), [Int(3), Name("days")], []);
      CallOutcome(c) == Fired(c, TimedeltaNoKeywordArgs, [])
  {
  }

  /** Calls that need a timezone, without one and with one. */
  lemma TimezoneScenarios()
    ensures var c := Call(OfDatetime("now"), [], []);
      CallOutcome(c) == Fired(c, CallWithoutTimezone, ["now"])
    ensures var c := Call(OfDatetime("fromtimestamp"), [Int(1)], []);
      CallOutcome(c) == Fired(c, CallWithoutTimezone, ["fromtimestamp"])
    ensures var c := Call(Name("datetime"), [], []);
      CallOutcome(c) == Fired(c, CallWithoutTimezone, ["datetime"])
    ensures var c := Call(OfDatetime("astimezone"), [], []);
      CallOutcome(c) == Fired(c, CallWithoutTimezone, ["astimezone"])
    ensures CallOutcome(Call(OfDatetime("now"), [], [Kw("tz", Utc)])) == Emitted([])
    ensures CallOutcome(Call(OfDatetime("fromtimestamp"), [Int(1), Utc], [])) == Emitted([])
    ensures CallOutcome(Call(Name("datetime"), [], [Kw("tzinfo", Utc)])) == Emitted([])
    ensures CallOutcome(Call(OfDatetime("astimezone"), [], [Kw("tzinfo", Utc)])) == Emitted([])
    ensures CallOutcome(Call(OfDatetime("now"), [], [Kw("tz", Const(NoneC))])) == Emitted([])
  {
    assert [Int(1), Utc][1] == Utc;
  }

  /** Calls that can only give naive values are always reported. */
  lemma NaiveScenarios()
    ensures var c := Call(OfDatetime("today"), [], []);
      CallOutcome(c) == Fired(c, NaiveObjectUsed, ["today"])
    ensures var c := Call(OfDatetime("utcnow"), [], []);
      CallOutcome(c) == Fired(c, NaiveObjectUsed, ["utcnow"])
    ensures var c := Call(OfDatetime("utcfromtimestamp"), [Int(1)], []);
      CallOutcome(c) == Fired(c, NaiveObjectUsed, ["utcfromtimestamp"])
    ensures var c := Call(OfDatetime("utctimetuple"), [], []);
      CallOutcome(c) == Fired(c, NaiveObjectUsed, ["utctimetuple"])
    ensures var c := Call(OfDatetime("time"), [], [Kw("tzinfo", Utc)]);
      CallOutcome(c) == Fired(c, NaiveObjectUsed, ["time"])
  {
  }

  /** What `visit_call` does on the calls whose test expectations it does
      not meet: `datetime(1, 1, 1, 1, timezone.utc)` is not a timedelta call
      and its attribute argument counts as a zone, and `fromisocalendar` and
      `fromordinal` are not call-rule names. */
  lemma CallsOutsideTheCallRules()
    ensures CallOutcome(Call(Name("datetime"), [Int(1), Int(1), Int(1), Int(1), Utc], [])) == Emitted([])
    ensures CallOutcome(Call(Attribute(OfDatetime("datetime"), "fromisocalendar"), [Int(1), Int(1), Int(1)], []))
      == Emitted([])
    ensures CallOutcome(Call(Attribute(OfDatetime("datetime"), "fromordinal"), [Int(1)], [])) == Emitted([])
    ensures CallOutcome(Call(Call(Name("factory"), [], []), [], [])) == Failed(CalleeWithoutName)
  {
    assert [Int(1), Int(1), Int(1), Int(1), Utc][4] == Utc;
  }

  /** `d = datetime.datetime.min` (or `fromordinal(1)`), `d` inferred as
      `datetime.datetime`, followed by various statements. */
  function NaiveAssign(value: Expr, next: Option<Statement>): Assign {
    Assign(AssignName("d", Inferred("datetime.datetime")), value, next)
  }

  function FollowedBy(e: Expr): Option<Statement> {
    Some(Statement(Some(e)))
  }

  /** No following statement, a following `replace` with and without a
      timezone, a following unrelated call, a `replace` on another receiver,
      and targets the rule does not apply to. */
  lemma AssignScenarios()
    ensures var a := NaiveAssign(Attribute(OfDatetime("datetime"), "min"), None);
      AssignOutcome(a) == Emitted([Message(MissingTimezoneReplace, AtAssign(a), ["min"])])
    ensures var a := NaiveAssign(Attribute(OfDatetime("datetime"), "min"),
                                 FollowedBy(Call(Attribute(Name("d"), "replace"), [], [Kw("tzinfo", Utc)])));
      AssignOutcome(a) == Emitted([])
    ensures var r := Call(Attribute(Name("d"), "replace"), [Int(1)], []);
      var a := NaiveAssign(Attribute(OfDatetime("datetime"), "min"), FollowedBy(r));
      AssignOutcome(a) == Emitted([Message(CallWithoutTimezone, AtExpr(r), ["replace"])])
    ensures var a := NaiveAssign(Call(OfDatetime("fromordinal"), [Int(1)], []),
                                 FollowedBy(Call(Name("use"), [Name("d")], [])));
      AssignOutcome(a) == Emitted([Message(MissingTimezoneReplace, AtAssign(a), ["fromordinal"])])
    ensures var a := NaiveAssign(Call(OfDatetime("fromisocalendar"), [Int(1), Int(1), Int(1)], []),
                                 FollowedBy(Call(Attribute(Name("other"), "replace"), [Utc], [])));
      AssignOutcome(a) == Emitted([])
    ensures AssignOutcome(Assign(AssignName("d", Uninferable), Attribute(OfDatetime("datetime"), "min"), None))
      == Emitted([])
    ensures AssignOutcome(Assign(AssignName("d", Inferred("builtins.int")), Attribute(Name("n"), "max"), None))
      == Emitted([])
  {
    assert [Utc][0] == Utc;
  }

  /** The assignments on which `visit_assign` raises: `d = datetime(2000, 1, 1)`
      with `datetime` imported by name, and a naive value followed by a
      statement without `.value` (here `pass`). */
  lemma AssignFaultScenarios()
    ensures AssignOutcome(NaiveAssign(Call(Name("datetime"), [Int(2000), Int(1), Int(1)], []), None))
      == Failed(CalleeNotAttribute)
    ensures AssignOutcome(NaiveAssign(Attribute(OfDatetime("datetime"), "min"), Some(Statement(None))))
      == Failed(SiblingWithoutValue)
  {
  }
}
