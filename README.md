# pylint-datetime rule logic in Dafny

This project models the rule logic of `DatetimeChecker`, a pylint checker.
The checker flags uses of Python's `datetime` API that produce naive values,
meaning values without a timezone. Pylint calls two entry points on the
astroid syntax tree:

- `visit_call` runs on every call node. It reports three rules:
  - `datetime-timedelta-no-keyword-args`: `timedelta` is called, and the
    first positional argument not equal to 0 has a `.value`. When it has
    none, the visit raises instead (see the faults below).
  - `datetime-call-without-timezone`: `datetime`, `now`, `fromtimestamp` or
    `astimezone` is called with no timezone keyword and no attribute-access
    argument.
  - `datetime-naive-object-used`: `today`, `utcnow`, `utcfromtimestamp`,
    `utctimetuple` or `time` is called.
- `visit_assign` runs on every assignment. A name inferred as
  `datetime.datetime` or `datetime.time` may be bound to `.min`, `.max`,
  `.fromordinal(...)` or `.fromisocalendar(...)`. The statement after such
  an assignment must then be a `replace` call that carries `tzinfo=` or an
  attribute argument.

The files:

- `Ast.dfy` holds the view of the syntax tree. Expressions are `Name`,
  `FunctionDef`, `Attribute`, `Call`, `Const` and `Other`. A keyword argument
  is a pair of its name and its value. An assignment has its first target,
  its value and the statement that follows it. `ValueAttr` models reading
  `.value` on a node. It fails on names, attribute accesses, calls and
  operators.
- `Messages.dfy` holds the four message symbols and the messages. A message
  is a symbol, an anchor node and its format arguments. An `Outcome` is
  either the messages a visit adds or the fault it raises.
- `Checker.dfy` holds the rules. `CalleeName` classifies the callee, and
  `TimezoneMessages` is `check_function_called_with_timezone`.
  `CallOutcome` and `AssignOutcome` specify each visitor as a function of
  the node. `VisitCall`,
  `NaivePropertiesMethodsReplace` and `VisitAssign` follow the checker step
  by step: `VisitCall` has the timedelta loop with its `break`, and the
  replace check has the `next_is_empty` flag. Each method appends messages
  one at a time and is proved to compute its specification function.
- `Properties.dfy` proves the rules over all nodes.
- `Scenarios.dfy` proves concrete calls and assignments, including the
  inputs on which the checker raises.

The checker raises in three places. Each is modelled as a `Failed` outcome,
not as a precondition:

- a callee that is neither a name nor an attribute access (`assert False`);
- an assigned call whose callee is not an attribute access
  (`assert isinstance(func, nodes.Attribute)`);
- reading `.value` where the node has none. This happens for a `timedelta`
  argument such as `timedelta(days)` or `timedelta(-1)`, and for a following
  statement such as `pass` or `if`.

In both visitors the fault comes before any message is added. So a failed
visit adds nothing.

Behaviour of the checker worth noting:

- Callee names are not resolved through imports or aliases. Only the written
  name, or the rightmost attribute, counts.
- A callee of any other shape, such as `factory()()`, raises at the
  `assert False`.
- The replace rule looks only at the statement that follows an assignment.
  A chained `datetime.datetime.min.replace(...)` is not examined, because
  the checker defines no `visit_attribute`.
- The tests expect `datetime(1, 1, 1, 1, timezone.utc)` to get the
  timedelta message, and `fromordinal`/`fromisocalendar` calls to get the
  replace message through `visit_call`. The code does neither.
  `Scenarios.CallsOutsideTheCallRules` proves what the code does instead.

## Model

| member | source | states |
|---|---|---|
| `DatetimeChecker.CalleeName` | src/pylint_datetime/__init__.py:75-83 | The callee has a name exactly when it is a `Name`, a `FunctionDef` or an `Attribute`. For a `Name` or `FunctionDef` the name is its `name`. For an `Attribute` the name is its `attrname`, whatever the base. |
| `DatetimeChecker.TimezoneMessages` | src/pylint_datetime/__init__.py:51-67 | At most one message. It is `datetime-call-without-timezone` naming the function, anchored at the call, exactly when no keyword is `tz`/`tzinfo` and no positional argument is an attribute access. Otherwise no message: the result is empty exactly when a `tz`/`tzinfo` keyword or an attribute-access argument is present. |
| `Ast.ValueAttr` | src/pylint_datetime/__init__.py:87 | Reading `.value` succeeds exactly on a `Const` or on a node kind that has a `.value` child. On a `Const` it yields the constant; on the other kinds it yields a child node. |
| `DatetimeChecker.VisitCall` | src/pylint_datetime/__init__.py:69-95 | The step-by-step `visit_call` returns exactly `CallOutcome(node)`. This covers the positional-argument loop that stops at the first argument not equal to 0. |
| `DatetimeChecker.NaivePropertiesMethodsReplace` | src/pylint_datetime/__init__.py:97-141 | The flag-based replace check returns exactly `ReplaceCheck(node, matched)`. |
| `DatetimeChecker.VisitAssign` | src/pylint_datetime/__init__.py:143-172 | The chain of guards in `visit_assign` returns exactly `AssignOutcome(node)`. |
| `Messages.SymbolNamesDistinct` | src/pylint_datetime/__init__.py:18-39 | The four symbolic message names are pairwise distinct, in both directions. |
| `CheckerProperties.NameSetsDisjoint` | src/pylint_datetime/__init__.py:85-94 | `timedelta`, the timezone-call names and the naive-call names are pairwise disjoint. |
| `CheckerProperties.TimedeltaScanStopsAtFirstNonZero` | src/pylint_datetime/__init__.py:86-89 | The argument scan is quiet iff every argument equals 0. It fires iff the first argument not equal to 0 has a value. It is stuck iff that argument has no `.value`. |
| `CheckerProperties.TimedeltaRule` | src/pylint_datetime/__init__.py:85-89 | For `timedelta`: no message iff all positional arguments equal 0 (including when there are none). Exactly one message without arguments iff a nonzero argument comes first, however many follow. A fault iff an argument without `.value` comes first. |
| `CheckerProperties.TimezoneRule` | src/pylint_datetime/__init__.py:51-92 | For the four timezone-call names: exactly one `datetime-call-without-timezone` naming the callee iff no keyword is `tz`/`tzinfo` and no positional argument is an attribute access. Otherwise no message. |
| `CheckerProperties.TimezoneKeywordValueIgnored` | src/pylint_datetime/__init__.py:60-63 | A `tz=` or `tzinfo=` keyword with any value, `None` included, suppresses the timezone message. |
| `CheckerProperties.NaiveRule` | src/pylint_datetime/__init__.py:94-95 | For the five naive-call names: exactly one `datetime-naive-object-used` naming the callee, whatever the arguments. |
| `CheckerProperties.UnlistedCalleeQuiet` | src/pylint_datetime/__init__.py:85-95 | A named callee outside all three name sets yields no message. |
| `CheckerProperties.CalleeShapeFault` | src/pylint_datetime/__init__.py:78-83 | `visit_call` raises `CalleeWithoutName` iff the callee is not a `Name`, `FunctionDef` or `Attribute`. |
| `CheckerProperties.AtMostOneCallMessage` | src/pylint_datetime/__init__.py:85-95 | `visit_call` adds at most one message. Every message is anchored at the call and fills its template's placeholders. |
| `CheckerProperties.ReplaceCheckReached` | src/pylint_datetime/__init__.py:149-172 | `visit_assign` is quiet unless the first target is a name inferred (not `Uninferable`) as `datetime.datetime`/`datetime.time`. With such a target it runs the replace check for `.min`/`.max` and for calls of `.fromordinal`/`.fromisocalendar`, passing the matched name. It raises iff the value is a call on a non-attribute callee. Any other value is quiet. |
| `CheckerProperties.ReplaceCheckOutcomes` | src/pylint_datetime/__init__.py:107-141 | No following statement: one `datetime-missing-timezone-replace` with the matched name. A following statement that is not a `replace` call: the same. A `replace` call on any receiver: `datetime-call-without-timezone` with `"replace"`, anchored at that call, iff it has no `tzinfo` keyword and no attribute argument. Otherwise nothing. A following statement without `.value` raises. |
| `CheckerProperties.ReplaceIgnoresTzKeyword` | src/pylint_datetime/__init__.py:117-120 | A following `x.replace(tz=...)` is reported as lacking a timezone, for any receiver `x`. Only `tzinfo` counts here. |
| `CheckerProperties.AtMostOneAssignMessage` | src/pylint_datetime/__init__.py:107-172 | `visit_assign` adds at most one message, because the sibling and no-sibling branches exclude each other. That message fills its template's placeholders. |
| `Scenarios.TimedeltaScenarios` | tests/test_pylint_datetime.py:69-100 | `timedelta(1)` and `datetime.timedelta(1)` are reported once. So is `timedelta(1, 2)`. `timedelta(seconds=1)`, `timedelta(0)` and `timedelta(0, 0.0, False)` are not. |
| `Scenarios.TimedeltaFaultScenarios` | src/pylint_datetime/__init__.py:86-89 | `timedelta(days)` and `timedelta(-1)` raise. So does `timedelta(0, days)`. `timedelta(3, days)` is reported before `days` is reached. |
| `Scenarios.TimezoneScenarios` | tests/test_pylint_datetime.py:102-153 | `now()`, `fromtimestamp(1)`, `datetime()` and `astimezone()` are reported with their names. The forms with `tz=`, `tzinfo=`, a positional `timezone.utc` or `tz=None` are not. |
| `Scenarios.NaiveScenarios` | tests/test_pylint_datetime.py:155-188 | `today()`, `utcnow()`, `utcfromtimestamp(1)` and `utctimetuple()` are reported with their names. So is `time(tzinfo=...)`. |
| `Scenarios.CallsOutsideTheCallRules` | src/pylint_datetime/__init__.py:75-95 | `datetime(1, 1, 1, 1, timezone.utc)`, `datetime.datetime.fromisocalendar(1, 1, 1)` and `datetime.datetime.fromordinal(1)` give no message in `visit_call`. `factory()()` raises. |
| `Scenarios.AssignScenarios` | src/pylint_datetime/__init__.py:107-172 | `d = datetime.datetime.min` as the last statement is reported with `"min"`. With `d.replace(tzinfo=timezone.utc)` after it, nothing is reported. With `d.replace(1)` after it, the replace call is reported. A `fromordinal` value followed by an unrelated call is reported with `"fromordinal"`. An uninferable or unrelated target is quiet. |
| `Scenarios.AssignFaultScenarios` | src/pylint_datetime/__init__.py:109-164 | `d = datetime(2000, 1, 1)` with `datetime` imported by name raises. So does `d = datetime.datetime.min` followed by a statement without `.value`. |

## Left out

- The astroid front end is not modelled: parsing, `extract_node` and node
  identity. Nodes are plain values, so an anchor is the node's structure, not
  its position in the file.
- Type inference is not modelled. The result of `inferred()[0].qname()`, or
  `Uninferable`, is an input on `AssignName`. An inference that raises is not
  modelled.
- `next_sibling()` navigation is not modelled. The following statement is an
  input on `Assign`. The statement is seen only through its `.value`. A bare
  `return`, whose `.value` is `None`, is written `Other(false)` and behaves
  the same way.
- Python values are partly abstracted. Floats are reals, so NaN and
  infinities are `OtherC`. Only `==`/`!=` against 0 is modelled, matching the
  comparison the checker makes.
- Pylint plumbing is not modelled: `BaseChecker`, `add_message` formatting,
  the message texts and W-codes, `register`, and checker priority. Only the
  symbolic names are kept, with the number of `%s` placeholders in each
  template.
- The traversal driver is not modelled. Pylint calls each visitor once per
  node, and the checker keeps no state between calls. A whole-file run is
  the concatenation of the per-node outcomes up to the first visit that
  raises; a `Failed` outcome is an exception that ends the walk of that file.
- The test harness (`CheckerTestCase`, `assertAddsMessages`) is not
  modelled. The test calls to `visit_attribute` are left out, because the
  checker has no such method.
