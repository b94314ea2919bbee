# bayes.js in Dafny

bayes.js is a small exact-inference engine for Bayesian networks over boolean
events. `EVENT(id)` registers an event and returns a handle. `~h` is the
negated handle. `P(e).given(...).is(p)` builds the probability table of an
event, and `facts(...)` commits such tables to the network. Coercing a query
object `+P(a, ...).given(...)` to a number runs `conditionalProbability`. That
function answers from the table when the observations are exactly the event's
dependencies. Otherwise it applies Bayes' rule: it sums joint probabilities
over every assignment of the variables the query does not mention.

This project models that engine:

| file | module | what it holds |
|---|---|---|
| `handles.dfy` | `Handles` | `~h` as `-h - 1`, and `norm` |
| `bits.dfy` | `Bits` | powers of two and bit extraction for the counters |
| `model.dfy` | `Model` | event records, probability data (a scalar or a table with holes), the exceptions, and `Prob`, which is a number or the exception that computing it threw |
| `index.dfy` | `Index` | `probIndex` as a loop, proved against a slot function |
| `registry.dfy` | `Registry` | the closure's `network` and `id_counter` as a class, with `EVENT` and `facts` |
| `builder.dfy` | `Builder` | the probability object as a class, with its `is`/`given` state machine |
| `inference.dfy` | `Inference` | `getProbability`, `applyConditions`, `jointProbability`, `nuisanceVariables`, `nuisanceIterate`, `perfectMatch` and `conditionalProbability` |
| `theorems.dfy` | `Theorems` | the answers are probabilities, the numerator never exceeds the denominator, and an event can be summed out of a joint probability |
| `symmetry.dfy` | `Symmetry` | the order of two targets does not change the answer |
| `findings.dfy` | `Findings` | the shortcut as the source writes it, and a two-event network that tells it apart from the corrected one |
| `scenarios.dfy` | `Scenarios` | the builder and `facts` examples of the library's test suite |
| `complement.dfy` | `Complement` | an event and its negation get answers that add up to 1 |
| `worked.dfy` | `Worked` | the inference examples of the test suite, on networks with a dependency |
| `cycles.dfy` | `Cycles` | a network that `facts` accepts and whose joint probabilities add up to 2 |

Inference works on a snapshot of the network, given as a `seq<EventRecord>`.
Each loop of the source is a method, proved equal to a function:
- `probIndex`'s `|=` loop computes the recursive `Slot`;
- `jointProbability`'s product computes the recursive `Joint`;
- `nuisanceIterate`'s two nested loops compute the comprehension
  `Combinations`;
- the two accumulations in `conditionalProbability` compute the recursive
  `SumJoint`;
- the loop of `facts` over its arguments computes the recursive `Commit`.

The theorems are stated about those functions. The functions also fix the
order of evaluation. The first failing lookup decides which exception a query
throws, exactly as the source's left-to-right loops do.

## Model

| member | source | states |
|---|---|---|
| Handles.Neg | bayes.js:334 | the complement of a handle has the opposite sign |
| Handles.Norm | bayes.js:334 | `norm` leaves a non-negated handle alone and inverts a negated one |
| Handles.NormAll | bayes.js:297 | the normalised list has the same length, with each element normalised |
| Handles.NegInvolutive | bayes.js:334 | `~~h == h`, and both polarities normalise to the same handle |
| Index.ProbIndex | bayes.js:189-200 | the index is below `2^k`; bit `i` is set iff the `i`-th given is non-negated; it equals `Slot` |
| Index.SlotBit | bayes.js:189-200 | bit `k` of the slot is set iff given `k` is non-negated |
| Index.SlotInjective | bayes.js:189-200 | two polarity patterns of one length with the same slot agree in every position |
| Registry.Network.constructor | bayes.js:8-10 | the network starts empty, with the counter at 0 |
| Registry.Network.Event | bayes.js:41-59 | returns the old length; appends exactly one record with empty `probabilities` and `depends`; without an id the counter names it and is incremented |
| Registry.CommitOne | bayes.js:209-219 | not a probability object: TypeError. No entry for the handle: ReferenceError. Otherwise only that entry's `probabilities` and `depends` are replaced |
| Registry.Network.Facts | bayes.js:207-221 | the new network and the exception are those of committing the objects in turn |
| Registry.CommitFrame | bayes.js:207-221 | `facts` keeps the length and leaves unnamed entries unchanged; it fails iff some object is not a valid reference; it keeps all stored numbers in [0, 1] |
| Builder.ToFraction | bayes.js:161-166 | RangeError iff p is outside [0, 100]; a value above 1 is divided by 100; the result lies in [0, 1] |
| Builder.PercentIsFraction | bayes.js:161-166 | `is(50)` and `is(0.5)` store the same value |
| Builder.Stored | bayes.js:168-172 | a negated event stores `1 - p`, a non-negated one stores `p` |
| Builder.Probability.P | bayes.js:110-141 | a fresh object with empty data; a single event has both `is` and `given`; a joint query has only `given` |
| Builder.Probability.Given | bayes.js:129-157 | single event: `depends` becomes the normalised givens only if it was empty, `given` goes, and an `is` bound to the givens comes; joint query: `depends` is overwritten and `given` goes |
| Builder.Probability.Is | bayes.js:160-186 | out of range: RangeError, and nothing changes. Otherwise the event becomes non-negated and `is` goes. Unconditional: the scalar is stored and `given` goes. Conditional: only slot `probIndex(givens)` is written and `given` comes back |
| Inference.GetProbability | bayes.js:312-331 | no such event: TypeError; a hole: ReferenceError; otherwise the stored number, complemented for a negated term, in [0, 1] when the network is |
| Inference.GetProbabilityComplement | bayes.js:326-330 | `getProbability(~e, d) + getProbability(e, d) == 1` |
| Inference.ApplyConditions | bayes.js:242-245 | same length; each element normalises to the dependency; it is negated iff the negated dependency is among the terms |
| Inference.Factor | bayes.js:230-233 | one term's factor is a probability over a network of probabilities |
| Inference.ProductInUnit | bayes.js:225-237 | a joint probability over a network of probabilities lies in [0, 1] |
| Inference.ProductAppend | bayes.js:225-237 | the product over `xs ++ ys` is the product of the two products, with the left error first |
| Inference.ProductStops | bayes.js:229-234 | the first failing lookup is the exception of the whole product |
| Inference.JointProbability | bayes.js:225-237 | the loop computes `Joint`, which is the product of the factors, or its first exception |
| Inference.UnlistedSpec | bayes.js:296-301 | the filter keeps exactly the unlisted indices below n, ascending |
| Inference.NuisanceVariables | bayes.js:296-301 | ascending network indices; x is in the result iff it is an index that no term mentions in either polarity |
| Inference.NuisanceIterate | bayes.js:274-292 | exactly `2^m` lists; list `i` is `depends` followed by `nuisance[n]` when bit `n` of `i` is set and `~nuisance[n]` otherwise |
| Inference.PerfectMatch | bayes.js:303-309 | no such event: TypeError; otherwise true iff the observations equal the stored dependencies, which forces every observation to be non-negated |
| Inference.SumJointNonNegative | bayes.js:255-258 | an accumulated sum of joint probabilities is not negative |
| Inference.SumJointAppend | bayes.js:255-266 | a sum over two runs of lists is the sum of the two sums, with the left error first |
| Inference.SumJointStops | bayes.js:255-266 | the first failing joint probability is the exception of the whole sum |
| Inference.SumJoints | bayes.js:255-266 | an accumulation loop computes `SumJoint` |
| Inference.ConditionalProbability | bayes.js:249-271 | the method computes `Posterior`: the lookup shortcut for a single target, otherwise the numerator over the denominator; a zero denominator is reported |
| Theorems.ProductContext | bayes.js:242-245 | a product of lookups depends on the other terms only through the polarities they give to dependencies |
| Theorems.JointRotate | bayes.js:225-237 | a joint probability does not depend on which of two runs of terms comes first |
| Theorems.AssignSplit | bayes.js:274-292 | counter `i + 2^m * j` over `vars ++ extra` assigns `vars` by `i` and `extra` by `j` |
| Theorems.NumeratorBelowDenominator | bayes.js:255-266 | over a network of probabilities, 0 <= numerator <= denominator |
| Theorems.PosteriorInUnit | bayes.js:249-271 | over a network of probabilities, every answer lies in [0, 1] |
| Theorems.SumOut | bayes.js:260-266 | an event that nothing listed depends on drops out of a joint probability: P(.., e, ..) + P(.., ~e, ..) = P(.., ..) |
| Theorems.SlotOfAssign | bayes.js:189-200 | the polarity pattern that counter `x < 2^k` assigns has slot `x` |
| Theorems.SlotOnto | bayes.js:189-200 | every slot below `2^k` is the slot of some pattern of `k` givens, so a table over `k` dependencies has no unreachable slot |
| Complement.SameQueryShape | bayes.js:249-251 | `e` and `~e` leave the same nuisance variables and take the shortcut together |
| Complement.TwoBlocks | bayes.js:274-292 | the enumeration of `vars ++ [x]` is the enumeration of `vars` with `~x` followed by the one with `x` |
| Complement.TargetLast | bayes.js:225-237 | summing with the target last is summing with it first |
| Complement.DenominatorSplits | bayes.js:255-266 | the denominator for `e` (and for `~e`) is the numerator for `~e` plus the numerator for `e` |
| Complement.PosteriorIsRatio | bayes.js:268-270 | an answer not taken from the table is a non-zero denominator dividing the numerator |
| Complement.PosteriorOfRatio | bayes.js:268-270 | conversely, without the shortcut and with a non-zero denominator, the answer is the numerator over the denominator |
| Complement.PosteriorOfNumerators | bayes.js:255-270 | when the numerators for `e` and `~e` add up to 1, the answer for `e` is its numerator |
| Complement.PosteriorComplement | bayes.js:249-271 | whenever both queries succeed, P(e given deps) + P(~e given deps) = 1 |
| Symmetry.UnlistedSame | bayes.js:296-301 | the filter depends only on the set of listed indices |
| Symmetry.NuisanceSwap | bayes.js:296-301 | both orders of two targets leave the same nuisance variables |
| Symmetry.NumeratorSwap | bayes.js:255-258 | both orders of two targets give the same numerator |
| Symmetry.DenominatorSwap | bayes.js:260-266 | both orders of two freed targets give the same denominator |
| Symmetry.TargetOrderIrrelevant | bayes.js:249-271 | a two-target query has the same answer in either order of its targets |
| Findings.PosteriorAsWritten | bayes.js:249-251 | the shortcut as written tests only `events[0]`; it agrees with `Posterior` on single-target queries |
| Findings.AsWrittenIgnoresLaterTargets | bayes.js:249-251 | as written, on two independent events with P 0.5 and 0.2: P(a, d) = 0.5 and P(d, a) = 0.2 |
| Findings.TwoVariables | bayes.js:274-292 | two variables are enumerated as (~a,~d), (a,~d), (~a,d), (a,d) |
| Findings.CorrectedAnswersJointQuery | bayes.js:249-271 | corrected, both orders of that query give 0.5 · 0.2 = 0.1 |
| Scenarios.ChainedConditional | tests.js:135-150 | `P(e1).given(e2).is(0.1).given(~e2).is(0.9)` holds `[0.9, 0.1]` with `depends == [e2]`, and has `given` but not `is` |
| Scenarios.Percentage | tests.js:80-100 | `is(50)` stores 0.5 and removes `is` and `given`; `is(-1)` is a RangeError |
| Scenarios.NegatedIs | bayes.js:168-172 | `P(~e).is(0.3)` stores 0.7 for the non-negated event |
| Scenarios.ChainedFact | tests.js:166-168 | `facts` reads the event `e1`, `depends == [e2]` and the table with slots 1 and 0 from `P(e1).given(e2).is(0.1).given(~e2).is(0.9)` |
| Scenarios.CommitTwo | tests.js:160-175 | committing the two builders stores the scalar and the two-slot table with their `depends` |
| Scenarios.CommitUnknown | tests.js:181-187 | `facts(P(777).is(0.4))` is a ReferenceError and leaves the network unchanged |
| Worked.BuildAC | tests.js:196-213 | `EVENT` for a and c, then `facts(P(a).is(0.3), P(c).given(a).is(0.8).given(~a).is(0.4))`, stores the scalar and the table keyed by a's polarity |
| Worked.TableOfC | tests.js:205-207 | `P(c).given(a).is(0.8).given(~a).is(0.4)` holds slots 1 and 0, depending on `[a]` |
| Worked.TableOfD | tests.js:208-212 | `P(d).given(a, b).is(0.7).given(a, ~b).is(0.8).given(~a, b).is(0.1).given(~a, ~b).is(0.2)` holds slots 3, 1, 2 and 0, depending on `[a, b]` |
| Worked.BuildABD | tests.js:196-213 | the events a, b and d with their tables, built and committed |
| Worked.FactorC | bayes.js:230-245 | c's factor reads the row selected by a's polarity among the terms, in either polarity of c |
| Worked.FactorD | bayes.js:230-245 | d's factor reads the slot `a + 2b` selected by a's and b's polarities among the terms |
| Worked.JointAC | bayes.js:225-237 | P(c, a) in all four polarities is P(c given a) · P(a) |
| Worked.JointABD | bayes.js:225-237 | P(d, a, b) in all eight polarities is P(d given a, b) · P(a) · P(b) |
| Worked.NumeratorAC | bayes.js:255-258 | querying c or ~c alone sums over a: P(c) = 0.4 · 0.7 + 0.8 · 0.3 |
| Worked.NumeratorABD | bayes.js:255-258 | querying d or ~d alone sums over a and b in counter order |
| Worked.NuisanceOfD | bayes.js:296-301 | querying d or ~d alone leaves a and b, in that order, as the nuisance variables |
| Worked.JointsOfD | bayes.js:225-237 | the four assignments of a and b in counter order give P(d, a, b) as the product of d's row and the two roots |
| Worked.NumeratorOfObserved | bayes.js:255-258 | when every event is bound the numerator is the joint probability of the targets followed by the observations |
| Worked.NumeratorOfA | bayes.js:255-258 | the numerator of `+P(a).given(c)` is P(a, c) = 0.3 · 0.8 |
| Worked.DenominatorOfA | bayes.js:260-266 | the denominator of `+P(a).given(c)` is P(c) = 0.4 · 0.7 + 0.8 · 0.3 = 0.52 |
| Worked.StoredAnswers | tests.js:219-227 | `+P(a)` is 0.3 and `+P(c).given(a)` is 0.8, both read from the tables |
| Worked.MarginalOfC | bayes.js:249-271 | `+P(c)` is 0.52, through Bayes' rule with a as the nuisance variable |
| Worked.PosteriorOfA | tests.js:234-235 | `+P(a).given(c)` is 0.24 / 0.52 = 6/13, which the test expects near 0.46 |
| Worked.MarginalOfD | tests.js:229-232 | `+P(d)` is 0.32 |
| Cycles.FactorMutual | bayes.js:230-245 | in a network where a and b each depend on the other, each factor reads the row of the other event's polarity |
| Cycles.JointMutual | bayes.js:225-237 | P(b, a) is 1 when the polarities of a and b agree and 0 when they differ |
| Cycles.MutualJoints | bayes.js:225-237 | the four assignments in counter order have joint probabilities 1, 0, 0 and 1 |
| Cycles.MutualNuisance | bayes.js:296-301 | querying a alone leaves b as the nuisance variable |
| Cycles.MutualTotal | bayes.js:260-266 | summed over every assignment of b and a, the joint probability is 2, not 1 |
| Cycles.MutualDenominator | bayes.js:260-266 | the denominator of `+P(a)` on that network is 2 |

## Left out

- Identifiers are not looked at by any computation. `EVENT` with template-tag
  syntax is not modelled; an identifier is either given or taken from the
  counter. The tag's fallback to the counter for an empty string is part of
  that syntax.
- The global-name export under `_BAYES_GLOBAL_VARS` writes into the caller's
  scope and is not modelled.
- `Symbol.toPrimitive` coercion is not modelled. A query is an explicit call of
  `Inference.ConditionalProbability` with the targets and the raw observations
  the builder holds.
- `getName`, the text of error messages, `_reset`, the test-only exports and
  the module export are not modelled.
- Builder.Probability.P: `P` with a non-number event (TypeError) is ruled out
  by the types. Handles are integers, and fractional numbers are not modelled.
- Probabilities are exact reals. Floating-point rounding is not modelled.
- Inference.ConditionalProbability: when the denominator is 0, the source
  returns NaN. The model reports `ZeroDenominator` instead.
- Inference.ConditionalProbability: requires at least one target. Every
  builder passes its own event, and the source would fail on `events[0]` of an
  empty list.
- The shifts in `1 << length`, `i >> n` and `(b) << i` are 32-bit in the
  source. The model uses unbounded integers, so it does not capture wrap-around
  from 31 variables or givens on: with 31 nuisance variables `1 << 31` is
  negative and `nuisanceIterate` yields no list at all, and a 32nd given
  (`<< 31`) makes the slot negative.
- Builder.Probability.Is and Builder.Probability.Given require `hasIs` and
  `hasGiven`. In the source those methods are deleted from the object, and
  calling a deleted one is a TypeError (tests.js:85-86, 112 and 142). The model
  states which of the two is present instead of modelling that TypeError.
- The inference examples of the test suite use a network of five events. The
  model proves those queries on sub-networks: a and c for `+P(a)`,
  `+P(c).given(a)` and `+P(a).given(c)`, and a, b and d for `+P(d)`. That the
  five-event network gives the same answers is argued, not proved: the other
  events would be summed out as `Theorems.SumOut` shows in general, but no
  lemma states it for these instances.
  The queries `+P(a).given(~d)`, `+P(c).given(~a, e)`, `+P(~d, c)` and
  `+P(a, d).given(~b)` are not proved.
- Inference.NuisanceIterate: the source is a lazy generator. The model collects
  its lists in order. Nothing observable happens between two lists.
- After `facts`, the builder and the network share the same `depends` array
  and `probabilities` table. A later `is` on the builder would change the
  network entry too. The model copies values, so it does not capture that
  aliasing.
- A stored table is keyed by slot. In the source it is a sparse array, read
  as a number when there are no observations. The model keeps that coercion
  for the one-element array `[v]`; any other array counts as missing. It does
  not model other JavaScript coercions of stored values, such as strings.
  The coercion happens only where the value enters arithmetic. A root built as
  `P(a).given().is(0.3)` stores `[0.3]` with no dependencies. On the lookup
  shortcut with a non-negated target, `getProbability` (bayes.js:316-330)
  returns that array rather than a number, so the source's `+P(a)` fails in
  `Symbol.toPrimitive`, while `Inference.Posterior` answers `Ok(0.3)`.
- No theorem states that the joint probabilities of a network add up to 1
  over all assignments of its events. That holds when the dependencies form
  no cycle and every slot of every table is filled. `facts`
  (bayes.js:207-221) checks neither, and a cycle can break it:
  `Cycles.MutualDenominator` shows a network it accepts whose total is 2.
  The model proves the query-level statement instead,
  `Complement.PosteriorComplement`.
- No theorem states that the lookup shortcut agrees with Bayes' rule. That
  holds only when the stored tables describe a consistent network, which the
  source does not check.

## Findings

| source | as written | input that shows it | evidently intended | confidence | as-written member | corrected member |
|---|---|---|---|---|---|---|
| bayes.js:249-251 | the lookup shortcut tests `perfectMatch(events[0], deps)` alone, so a joint query is answered with its first target's own probability | two events without dependencies, P(a) = 0.5 and P(d) = 0.2, queried as `P(a, d)`: the code returns 0.5, `P(d, a)` returns 0.2, and the true answer is 0.1 | take the shortcut only for a query with a single target; a joint query goes through Bayes' rule, whose answer does not depend on the order of its targets | not executed | Findings.PosteriorAsWritten (exhibited by Findings.AsWrittenIgnoresLaterTargets) | Inference.ConditionalProbability, which computes Inference.Posterior (Symmetry.TargetOrderIrrelevant, Findings.CorrectedAnswersJointQuery) |
