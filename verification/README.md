# Statistics Monte Carlo exercises, modelled in Dafny

The repository is a set of small Python scripts from a statistics course. Each script pairs a random
process with the closed form it should approach:

- gambler's ruin (classes 1);
- Markov chains (classes 2);
- a single-server queue (classes 3);
- dice, population policies and blackjack (classes 4).

This project models the deterministic core of every script. The random draws are turned into explicit
inputs, after which each simulator is a sequential state machine:

- every `random.choices(population, weights)` is a uniform draw `u` in [0, 1), resolved by
  `Choices.Choose` the way CPython's `random.choices` resolves it, by bisecting the cumulative weights;
- every `randint`/`randrange` is an integer the caller supplies in the legal range;
- inter-arrival and service times are given lists.

A loop that Python runs until an event of probability one (a ruined player, a son, a converged matrix,
a bust) consumes a finite list of draws. Running out of draws is the model's own error
`DrawsExhausted`, or `OutOfFuel` for the fuel-bounded convergence loop. Python's exceptions become the
`Fail` branch of `Common.Fallible`:

- `ZeroDivision` for `ZeroDivisionError`;
- `KeyMissing` for `KeyError`;
- `IndexOutOfRange` for `IndexError`;
- `BadValue` for `ValueError` (a `range` step of 0, `max` of an empty list, `randrange(0)`).

Floats are exact reals (`0.5`, `1.4` and `0.64` are exact in Dafny).

Modules, one per file:

| module | file | scripts |
|---|---|---|
| `Common` | common.dfy | errors, sums, counts, list `pop`, fractions |
| `Choices` | choices.dfy | `random.choices` over explicit weights |
| `Walk` | walk.dfy | the ruin walk: one unit moves from one player to the other per round |
| `GamblersRuin` | gamblers_ruin.dfy | classes_1/exB (and its draft zadB), classes_1/exC |
| `RuinGames` | ruin_games.dfy | classes_1/exE, classes_1/exG (parts 1 and 2) |
| `MatrixPowers` | matrix_powers.dfy | classes_2/exA |
| `VisitChain` | visit_chain.dfy | classes_2/exB |
| `LoginChain` | login_chain.dfy | classes_2/exC, classes_2/exD |
| `SingleQueue` | single_queue.dfy | classes_3/exC (and its draft zadC) |
| `Dice` | dice.dfy | classes_4/exA, exB, exC |
| `Population` | population.dfy | classes_4/exD, exE |
| `BlackjackBust` | blackjack_bust.dfy | classes_4/exF `blackjack_game` |
| `BustTally` | bust_tally.dfy | classes_4/exF `games_handler` |
| `BlackjackStrategy` | blackjack_strategy.dfy | classes_4/exG strategies and one game |
| `StrategyHandler` | strategy_handler.dfy | classes_4/exG `games_handler` |

Two files are drafts of others:

- classes_1/exB/zadB.py has the same four functions as exB.py;
- classes_3/exC/zadC.py has the same arrival loop as exC.py.

One model serves both, and the rows below cite each draft where its lines are the ones modelled.

## Model

| member | source | states |
|---|---|---|
| Choices.ChooseHasWeight | statistics/classes_1/exB/exB.py:40-49 | `random.choices` with non-negative weights of positive total never returns an outcome of weight 0 |
| Choices.ChooseTwo | statistics/classes_1/exB/exB.py:49 | with two outcomes the draw returns 'A' exactly when u * (p + q) < p |
| Choices.ChooseOfTwoAgrees | statistics/classes_2/exC/exC.py:25-26 | for a two-entry weight row summing to 1, the simple test u < w0 picks what `random.choices` picks |
| Walk.Coins | statistics/classes_1/exB/exB.py:49 | round i is won by A exactly when `random.choices` returns 'A' for draw i, and one round is played per draw |
| Walk.AfterConserves | statistics/classes_1/exB/exB.py:48-54 | every round moves one unit from one capital to the other, so a + b is the same after any number of rounds |
| Walk.AfterDistance | statistics/classes_1/exB/zadB.py:45-51 | after k rounds each capital has moved by at most k |
| Walk.NeverWinsAtZero | statistics/classes_1/exB/exB.py:41-49 | with weights [0, q], q > 0, A never wins a round, whatever the draws |
| Walk.AlwaysWinsAtZeroQ | statistics/classes_1/exB/zadB.py:38-46 | with weights [p, 0], p > 0, A wins every round, whatever the draws |
| GamblersRuin.SymmetricEqualCapitals | statistics/classes_1/exB/exB.py:22-23 | in the fair game with equal capitals the ruin probability is exactly 1/2 |
| GamblersRuin.GeneralBoundaries | statistics/classes_1/exB/exB.py:24-25 | whenever (q/p)^(a+b) is not 1, the general branch gives 1 for a = 0 and 0 for b = 0 |
| GamblersRuin.CertainLossDividesByZero | statistics/classes_1/exB/exB.py:25 | with p = 0 outside the fair game, q/p raises ZeroDivisionError |
| GamblersRuin.TheoryDefined | statistics/classes_1/exB/exB.py:9-26 | for genuine weights p > 0, q >= 0, p + q = 1, and a + b > 0, the closed form never divides by zero |
| GamblersRuin.TheoryInUnitInterval | statistics/classes_1/exB/zadB.py:18-23 | whenever the closed form is defined for non-negative p and q, it lies in [0, 1] |
| GamblersRuin.FirstStepAnalysis | statistics/classes_1/exC/exC_ver2.py:23-27 | for 0 < p, q and 0 < a < a + b, the closed form solves the ruin recurrence P(a) = p P(a+1) + q P(a-1) |
| GamblersRuin.TheoryEndpoints | statistics/classes_1/exC/exC_ver2.py:25-26 | for genuine weights, ruin is certain from capital 0 and impossible against capital 0 |
| GamblersRuin.PlayToRuin | statistics/classes_1/exB/exB.py:48-54 | the `while A != 0 and B != 0` game plays at most one round per draw, and fails only for lack of draws |
| GamblersRuin.PlayToRuinStopsAtFirstRuin | statistics/classes_1/exB/exB.py:46-54 | a finished game stops at the first round where a capital is 0, and the final capitals are the walk after those rounds; an unfinished one never met a zero |
| GamblersRuin.GameConservesTotal | statistics/classes_1/exC/exC_ver2.py:47-55 | a finished game ends with the starting table total |
| GamblersRuin.ZeroCapitalGames | statistics/classes_1/exB/exB.py:48-56 | a game starting with A at 0 ends at once as a loss; one with B at 0 ends at once and is not a loss |
| GamblersRuin.Losses | statistics/classes_1/exB/exB.py:45-56 | `a_loses` never exceeds the number of games, and only missing draws stop the count |
| GamblersRuin.ExperimentalProbability | statistics/classes_1/exB/exB.py:29-57 | the estimate lies in [0, 1]; zero games is a ZeroDivisionError |
| GamblersRuin.LossesAtZeroCapital | statistics/classes_1/exB/zadB.py:42-54 | with A at 0 every game is a loss; with only B at 0 none is |
| GamblersRuin.ExperimentalEndpoints | statistics/classes_1/exC/exC_ver2.py:49-58 | the experimental endpoints are exact: 1 from a = 0, 0 against b = 0 |
| GamblersRuin.LossesCertain | statistics/classes_1/exB/exB.py:45-56 | with p = 0 every game is lost and with q = 0 none, for positive capitals |
| GamblersRuin.CertainExperiment | statistics/classes_1/exB/exB.py:41-57 | a certain round outcome makes the estimate exact: 1 when p = 0, 0 when q = 0 |
| GamblersRuin.TheorySweepOverP | statistics/classes_1/exB/exB.py:60-78 | the p sweep has 11 entries |
| GamblersRuin.TheorySweepOverPValues | statistics/classes_1/exB/exB.py:71-77 | the sweep substitutes 1.0 at p = 0, gives 1 - a/(a+b) at p = 0.5 and the certain outcome at p = 1, and every entry is in [0, 1] |
| GamblersRuin.ExperimentalSweepOverP | statistics/classes_1/exB/exB.py:81-105 | 11 entries, entry x the estimate at p = x/10, q = 1 - p, with 1.0 in place of a ZeroDivisionError; all in [0, 1] |
| GamblersRuin.ExperimentalSweepOverPEnds | statistics/classes_1/exB/zadB.py:84-95 | for positive capitals the sweep starts at 1 and ends at 0; with no games every entry is the substituted 1.0 |
| GamblersRuin.TheorySweepOverCapital | statistics/classes_1/exC/exC_ver2.py:61-76 | 11 entries, entry j the closed form at a = 10 j, b = 100 - 10 j; with no guard, one ZeroDivisionError aborts the sweep |
| GamblersRuin.TheorySweepOverCapitalUnguarded | statistics/classes_1/exC/exC_ver2.py:72-75 | with p = 0 outside the fair game the capital sweep fails with ZeroDivisionError |
| GamblersRuin.TheorySweepOverCapitalEnds | statistics/classes_1/exC/exC_ver2.py:72-76 | a successful capital sweep starts at 1 (a = 0) and ends at 0 (a = 100) |
| GamblersRuin.TheorySweepOverCapitalSymmetric | statistics/classes_1/exC/exC_ver2.py:23-24 | in the fair game the capital sweep is 1 - a/100 and strictly falls |
| GamblersRuin.ExperimentalSweepOverCapital | statistics/classes_1/exC/exC_ver2.py:79-100 | 11 entries, entry j the estimate at a = 10 j, b = 100 - 10 j |
| GamblersRuin.ExperimentalSweepOverCapitalEnds | statistics/classes_1/exC/exC_ver2.py:91-99 | every entry is in [0, 1], the ends are exactly 1 and 0, and zero games is a ZeroDivisionError |
| RuinGames.PlayRounds | statistics/classes_1/exE/exE.py:22-31 | the `while True` game plays at least one round and at most one per draw, failing only for lack of draws |
| RuinGames.PlayRoundsStopsAtFirstRuin | statistics/classes_1/exE/exE.py:22-32 | the game stops at the first round after which a capital is 0; the zero test runs only after a round |
| RuinGames.PlayRoundsAgreesWithPlayToRuin | statistics/classes_1/exG/exG_pt1.py:22-32 | from positive capitals the step-then-test loop plays the same game as the test-then-step loop |
| RuinGames.PlayRoundsConserves | statistics/classes_1/exE/exE.py:23-28 | a + b at the end is the starting a + b |
| RuinGames.GameLength | statistics/classes_1/exE/exE.py:8-32 | `play_game` returns a number of turns between 1 and the number of draws |
| RuinGames.GameLengthAtLeast | statistics/classes_1/exE/exE.py:29-32 | ruining A takes at least a turns and ruining B at least b, so a game lasts at least min(a, b) |
| RuinGames.GameLengthCertainLoss | statistics/classes_1/exE/exE.py:18-31 | with p = 0 the game lasts exactly a turns |
| RuinGames.GameLengthCertainWin | statistics/classes_1/exE/exE.py:18-28 | with p = 1 the game lasts exactly b turns |
| RuinGames.MaxLength | statistics/classes_1/exE/exE.py:51-55 | `current_highest` is at least every game's length and equal to one of them, 0 when no game is played |
| RuinGames.LengthSweep | statistics/classes_1/exE/exE.py:48-57 | 11 entries, entry x the longest game at p = x/10 |
| RuinGames.LengthSweepEnds | statistics/classes_1/exE/exE.py:48-55 | the longest game is a turns at p = 0 and b turns at p = 1 |
| RuinGames.PlayForWinner | statistics/classes_1/exG/exG_pt1.py:9-32 | `play_game` fails only for lack of draws |
| RuinGames.PlayForWinnerMeaning | statistics/classes_1/exG/exG_pt1.py:29-32 | it returns True exactly when B is ruined and False exactly when A is; a win leaves A with a + b |
| RuinGames.WinTrajectory | statistics/classes_1/exG/exG_pt1.py:58-64 | the trajectory starts at (0, 0), has one point per game, game i at index i, its wins the wins of the first i games |
| RuinGames.WinTrajectorySteps | statistics/classes_1/exG/exG_pt1.py:59-64 | the win count rises by exactly the game's result, so it never decreases, rises by at most 1 and never exceeds the games played |
| RuinGames.Winners | statistics/classes_1/exG/exG_pt1.py:60-61 | one result per game, each what `play_game` returns on that game's draws |
| RuinGames.WinTrajectories | statistics/classes_1/exG/exG_pt1.py:53-65 | one trajectory of n + 1 points per p in (0.3, 0.5, 0.7) |
| RuinGames.TrackFollowsGame | statistics/classes_1/exG/exG_pt2.py:24-36 | the appended points are (turn, capital of A) after each round of the game, and there is one per round |
| RuinGames.CapitalTrajectory | statistics/classes_1/exG/exG_pt2.py:9-37 | the trajectory starts with (0, a) and has at least one more point |
| RuinGames.CapitalTrajectoryFollowsGame | statistics/classes_1/exG/exG_pt2.py:20-32 | point i is (i, capital of A after i rounds), one point per round plus the start |
| RuinGames.CapitalTrajectoryShape | statistics/classes_1/exG/exG_pt2.py:25-36 | consecutive capitals differ by exactly 1, the last is 0 or a + b, and every earlier one lies strictly between them |
| RuinGames.CapitalTrajectories | statistics/classes_1/exG/exG_pt2.py:57-74 | one capital trajectory per p in (0.25, 0.5, 0.75); the call succeeds exactly when all three games finish and abs(a + b) > 10, since otherwise the tick step `round((a + b) / 20)` is 0 and `range` raises ValueError |
| MatrixPowers.Multiply | statistics/classes_2/exA/exA.py:12-27 | an (M x A) times (A x N) product is M x N and entry (i, j) is the sum over k of first[i][k] * second[k][j] |
| MatrixPowers.FlattenAt | statistics/classes_2/exA/exA.py:57-59 | the row-major flattening puts entry (i, j) of a rows x cols matrix at position i * cols + j, and has rows * cols entries |
| MatrixPowers.FlattenMembers | statistics/classes_2/exA/exA.py:36 | the flattening holds exactly the matrix's entries |
| MatrixPowers.MaxOf | statistics/classes_2/exA/exA.py:36 | `max` of a non-empty list is one of its elements and no element exceeds it |
| MatrixPowers.HighestIsMax | statistics/classes_2/exA/exA.py:30-36 | `highest` of a non-empty matrix is an entry of the matrix, and no entry exceeds it |
| MatrixPowers.NextPower | statistics/classes_2/exA/exA.py:56 | one multiplication by the base matrix turns P^k into P^(k+1) |
| MatrixPowers.HistoryEntries | statistics/classes_2/exA/exA.py:55-59 | the history before the last append has n rows, row i the flattening of P^(i+1) |
| MatrixPowers.Converge | statistics/classes_2/exA/exA.py:39-61 | the loop stops at the first k with abs(max(P^k) - max(P^(k+1))) < criterion, returns k as `counter` and k + 1 flattened powers P^1 .. P^(k+1) |
| MatrixPowers.BaseMatrixStochastic | statistics/classes_2/exA/exA.py:47-49 | the base matrix is 3 x 3 with positive entries and rows summing to 1 |
| MatrixPowers.ProductStochastic | statistics/classes_2/exA/exA.py:12-27 | the product of two stochastic matrices is stochastic |
| MatrixPowers.PowerStochastic | statistics/classes_2/exA/exA.py:50-56 | every power of a stochastic matrix is stochastic, so every power's rows sum to 1 |
| MatrixPowers.BasePowersAreProbabilities | statistics/classes_2/exA/exA.py:57 | every recorded history row has 9 entries, all in [0, 1] |
| VisitChain.RowIndex | statistics/classes_2/exB/exB.py:30 | `base_matrix[x_pos]` exists exactly for -3 <= x_pos < 3, negative indices counting from the end; otherwise IndexError |
| VisitChain.Next | statistics/classes_2/exB/exB.py:31 | the drawn node is in {0, 1, 2} |
| VisitChain.NextHasWeight | statistics/classes_2/exB/exB.py:30-31 | the drawn node always has positive weight in the current row |
| VisitChain.Path | statistics/classes_2/exB/exB.py:29-32 | one visited node per draw, each in {0, 1, 2}; the start node is not a visit |
| VisitChain.PathAt | statistics/classes_2/exB/exB.py:30-32 | visit t is the node reached by the first t + 1 draws, one transition from visit t - 1 |
| VisitChain.CountsAddUp | statistics/classes_2/exB/exB.py:21-32 | after t steps the visit counts add up to t |
| VisitChain.FrequenciesDistribution | statistics/classes_2/exB/exB.py:33-35 | a recorded row has 3 entries in [0, 1] summing to 1 |
| VisitChain.RowsLayout | statistics/classes_2/exB/exB.py:29-35 | after t steps there are t / leap rows, row j the visit frequencies after (j + 1) leap steps |
| VisitChain.CalculationsHandler | statistics/classes_2/exB/exB.py:12-36 | no rows for no iterations; IndexError for a start outside the matrix; ZeroDivisionError for leap 0; otherwise iterations / abs(leap) rows, row j the frequencies of the visits after (j + 1) abs(leap) steps |
| VisitChain.RowsAreDistributions | statistics/classes_2/exB/exB.py:33-35 | every recorded row of a run is a distribution over the three nodes |
| VisitChain.BaseRowsPositive | statistics/classes_2/exB/exB.py:23-25 | every base-matrix row is positive and sums to 1 |
| LoginChain.NextStateDraws | statistics/classes_2/exC/exC.py:31-35 | a logged-out user draws with [0.8, 0.2] and a logged-in user with the logged-in row, and the new state is 0 or 1 |
| LoginChain.WeightRowsTotalOne | statistics/classes_2/exC/exC.py:25-26 | both weight rows sum to 1, under the fixed and the state-dependent rule |
| LoginChain.AdaptiveWeightRange | statistics/classes_2/exD/exD.py:35-38 | the weight 0.008 x + 0.1 lies in [0.1, 0.9] for x <= 100, and both weights are non-negative exactly for -12 <= x <= 112 |
| LoginChain.MovesAt | statistics/classes_2/exD/exD.py:39-43 | user i moves with its own draw, from its own state, with the logged-in weights fixed at the start of the iteration |
| LoginChain.StatesAreKeys | statistics/classes_2/exC/exC.py:23-36 | every observed state `sum(users)` is between 0 and len(users), so it is a key of `status_dic` |
| LoginChain.SumBinary | statistics/classes_2/exD/exD.py:28-44 | the number of logged-in users lies between 0 and the number of users |
| LoginChain.TallyAt | statistics/classes_2/exC/exC.py:36 | the value of `status_dic[s]` is the number of iterations that ended in state s |
| LoginChain.TallyTotal | statistics/classes_2/exD/exD.py:34-44 | the state counts add up to the number of completed iterations |
| LoginChain.RowsLayout | statistics/classes_2/exC/exC.py:37-38 | after t iterations there are t / leap results, result j the tracked state's frequency after (j + 1) leap iterations |
| LoginChain.RowsInUnit | statistics/classes_2/exD/exD.py:45-46 | every result is a count over a positive number of iterations, in [0, 1] |
| LoginChain.OutcomeExhausted | statistics/classes_2/exC/exC.py:30-35 | running out of draws before the tracked state is found missing fails with DrawsExhausted |
| LoginChain.OutcomeKeyMissing | statistics/classes_2/exC/exC.py:37-38 | reaching the first multiple of leap with a tracked state outside 0..len(users) raises KeyError |
| LoginChain.ChangeState | statistics/classes_2/exC/exC.py:13-39 | no iterations leave the users untouched with no results; otherwise the call returns the run's results and the users as it left them |
| LoginChain.OutcomeShape | statistics/classes_2/exD/exD.py:18-47 | a successful call has iterations / abs(leap) results, result j taken after (j + 1) abs(leap) iterations and in [0, 1], and leaves as many users as it got, each 0 or 1 |
| LoginChain.TracksFailurePersists | statistics/classes_2/exC/exC.py:55-56 | once a tracked state's call fails, the graph fails with that error |
| LoginChain.ShowGraph | statistics/classes_2/exD/exD.py:50-70 | one `change_state` call per tracked state, at most one per colour, each continuing from the users the previous call left, then the x-axis ticks |
| LoginChain.ShowGraphAxis | statistics/classes_2/exD/exD.py:68-70 | after a successful loop, the fixed rule's graph (exC.py clears the ticks) is the series; the adaptive rule's graph is the series exactly when leap != 0, abs(n) > 5 abs(leap) and n is not in 0..9; leap = 0 gives ZeroDivisionError and the other cases ValueError (n = 40, leap = 10 is one) |
| LoginChain.ShowGraphLoopFailure | statistics/classes_2/exD/exD.py:63-70 | a failing `change_state` call ends `show_graph` with its error before the ticks |
| LoginChain.TracksShape | statistics/classes_2/exD/exD.py:50-66 | every successful graph has one series per tracked state, each of iterations / abs(leap) values, and keeps the number of users |
| SingleQueue.AdmittedIsFirst | statistics/classes_3/exC/exC.py:49-52 | the arrival loop stops at the first task whose arrival time exceeds `max_time`; every earlier arrival is at most `max_time` |
| SingleQueue.HistoryArrivals | statistics/classes_3/exC/exC.py:52-58 | task i's recorded arrival is the sum of the first i + 1 inter-arrival times |
| SingleQueue.HistoryStable | statistics/classes_3/exC/exC.py:56-63 | admitting later tasks only appends: the entries of earlier tasks never change |
| SingleQueue.ArrivalsNondecreasing | statistics/classes_3/exC/zadC.py:27-34 | with non-negative inter-arrival times, arrival times never decrease |
| SingleQueue.WaitingLast | statistics/classes_3/exC/exC.py:55-59 | in a sorted list of end times, some earlier task is still in the system exactly when the last end lies after the arrival |
| SingleQueue.EndsSorted | statistics/classes_3/exC/exC.py:59-63 | with non-negative service times, end times never decrease |
| SingleQueue.LastEnd | statistics/classes_3/exC/zadC.py:35-40 | with `counter` fixed at 0, `ending_time_list[counter - 1]` is the last end time, so a queued task ends at last end + service and a free one at arrival + service |
| SingleQueue.Lindley | statistics/classes_3/exC/exC.py:59-63 | with non-negative service times, end_i = max(arrival_i, end_(i-1)) + service_i, the FIFO single-server recursion |
| SingleQueue.OnArrivalCountsEarlier | statistics/classes_3/exC/exC.py:55-56 | the queue position on arrival counts the earlier tasks whose end lies after the arrival, so it is at most the number of earlier tasks |
| SingleQueue.DeparturesAt | statistics/classes_3/exC/exC.py:67-69 | entry i of the departure list is max(0, arrivals before end i - 2 - i) |
| SingleQueue.OnDepartureCountsLaterArrivals | statistics/classes_3/exC/zadC.py:42-44 | with positive service times, the departure entry of task i is the number of later tasks that arrived before it ended, less one, clamped at 0 |
| SingleQueue.CalculateTime | statistics/classes_3/exC/exC.py:38-85 | the arrival loop and the departure loop compute the admitted tasks' arrivals, end times and positions on arrival, then the departure list; tasks that run out before one arrives after `max_time` give DrawsExhausted, and an empty position list makes the ticks' `max` raise ValueError |
| SingleQueue.OutcomeShape | statistics/classes_3/exC/exC.py:49-69 | a successful run has `max_time` >= 0 and four non-empty lists of equal length; every arrival but the last is at most `max_time` and the last exceeds it |
| SingleQueue.OutcomeFailure | statistics/classes_3/exC/exC.py:49-85 | a negative `max_time` admits no task, so `max(queue_list_scheduled)` raises ValueError; that is the only ValueError, and every other failure is running out of tasks |
| SingleQueue.AdmittedFails | statistics/classes_3/exC/exC.py:49-52 | the arrival loop fails only by running out of tasks, with the clock still at most `max_time` |
| Dice.Enumeration | statistics/classes_4/exA/exA.py:17-24 | the 36 (croupier, player) outcomes of two dice are enumerated once each; 15 of them have player < croupier and 15 player > croupier |
| Dice.RowCounts | statistics/classes_4/exA/exA.py:23-24 | against croupier value c the player wins with the c - 1 smaller values; ties and larger values lose |
| Dice.TheoreticalWinChanceIsShare | statistics/classes_4/exA/exA.py:17 | the constant 15/36 is the share of the 36 outcomes the player wins |
| Dice.RollTheDices | statistics/classes_4/exA/exA.py:9-26 | the experimental chance is the wins among the first n rolls over n, in [0, 1]; zero rolls is a ZeroDivisionError |
| Dice.GainByWins | statistics/classes_4/exB/exB.py:27-30 | the capital change over any rolls is the win amount per win less 1 per other roll |
| Dice.Expectations | statistics/classes_4/exB/exB.py:27-59 | over the 36 outcomes the mean change per roll is -1/6 at even money and 0 with the 1.4 payout of the other script |
| Dice.TheoryFollowsExpectation | statistics/classes_4/exB/exB.py:48-61 | the theoretical line [c, 0] over [0, 6c] moves by -1/6 per roll, and [c, c] over [0, n] by 0 |
| Dice.ContinueValid | statistics/classes_4/exB/exB.py:24-40 | the loop's result starts at [c] over [0], records at every tenth roll, stops at the first roll leaving the capital at or below 0 and records it last, and keeps the two lists of equal length |
| Dice.OutcomeShape | statistics/classes_4/exC/exC.py:20-53 | a successful call returns a valid series and the win per game is the capital change up to the last recorded roll over that roll; the only failures are exhausted rolls and the ZeroDivisionError of a series with no recorded roll |
| Dice.EvenMoneyBankruptAtZero | statistics/classes_4/exB/exB.py:32-36 | with a whole positive start and even money, a bankrupt run ends at exactly 0 |
| Dice.CalculateExperimental | statistics/classes_4/exC/exC.py:27-50 | the loop computes `Outcome`: the series of the rolls and its win per game |
| Population.Initial | statistics/classes_4/exD/exD.py:28-30 | the first generation's men and women add up to `num_of_people` |
| Population.InitialSplit | statistics/classes_4/exE/exE.py:32-34 | a share of men in [0, 1] splits a non-negative population into non-negative numbers of men and women |
| Population.ChildrenCounts | statistics/classes_4/exE/exE.py:48-53 | k children use k draws and are k boys and girls, the boys being the boy draws; the loop fails exactly when the draws run out |
| Population.UntilSon | statistics/classes_4/exD/exD.py:99-105 | the `while True` loop uses at least one draw and fails only when the draws run out |
| Population.UntilSonShape | statistics/classes_4/exE/exE.py:134-140 | a one-son couple has girls for the non-boy draws and exactly one boy, at the first boy draw; it fails exactly when no boy draw is left |
| Population.HaveChildren | statistics/classes_4/exE/exE.py:48-53 | the `for _ in range(6)` loop computes the k-children births |
| Population.HaveSon | statistics/classes_4/exD/exD.py:99-105 | the `while True` loop computes the one-son births |
| Population.CoupleShape | statistics/classes_4/exE/exE.py:46-59 | a law-breaking couple has exactly 6 children; a law-abiding one has one child under the one-child policy and exactly one son under the one-son policy; with the law obeyed, or a breaking rate of 0, no couple breaks it |
| Population.CouplesShape | statistics/classes_4/exE/exE.py:124-140 | k couples give k + 5 x breakers children under one child, and between k - breakers and k + 5 x breakers boys under one son |
| Population.CouplesFail | statistics/classes_4/exE/exE.py:44-59 | a generation fails only when the draws run out |
| Population.FertileAtMostPairs | statistics/classes_4/exD/exD.py:30-38 | with fertility at most 1, at most `num_of_pairs` couples have children, and the pairs are at most half the people |
| Population.EvolveOneChild | statistics/classes_4/exD/exD.py:34-48 | under the law-abiding one-child policy each generation's size is the number of fertile couples of the one before |
| Population.EvolveOneSon | statistics/classes_4/exD/exD.py:94-111 | under the law-abiding one-son policy each generation's men are the fertile couples of the one before |
| Population.EvolveNatural | statistics/classes_4/exE/exE.py:40-65 | no generation of a run has a negative number of men or women |
| Population.EvolveHalving | statistics/classes_4/exD/exD.py:38-48 | with fertility at most 1, each one-child generation is at most half the one before |
| Population.OutcomeHalves | statistics/classes_4/exD/exD.py:16-49 | with fertility at most 1, each entry of the one-child population list is at most half the one before |
| Population.HaveGeneration | statistics/classes_4/exE/exE.py:44-59 | the inner couples loop computes one generation's births |
| Population.RunGenerations | statistics/classes_4/exE/exE.py:97-146 | the generation loop computes the census of ten generations |
| Population.CalculatePopulation | statistics/classes_4/exE/exE.py:97-166 | the function ends in the census it prints, or fails where the generations or the y-axis ticks do |
| Population.CalculatedFailure | statistics/classes_4/exD/exD.py:51-61 | the census is returned exactly when the generations finish and `num_of_people` is outside 0..9; 0 to 9 people make the tick step `num_of_people // 10` zero and `range` raise ValueError, and the only other failure is running out of draws |
| Population.OutcomeShape | statistics/classes_4/exE/exE.py:30-65 | both lists have 11 entries, generations 0..10, and population[0] is `num_of_people`; the generation loop fails only by running out of draws |
| Population.Children | statistics/classes_4/exE/exE.py:48-53 | k children take exactly the next k draws and involve no law-breaker; the only failure is running out of draws |
| Population.HaveFamily | statistics/classes_4/exE/exE.py:126-140 | one couple's branch on breaking the law computes that couple's births |
| Population.Evolve | statistics/classes_4/exD/exD.py:34-49 | a successful run has one entry per generation |
| Population.OneChildBirths | statistics/classes_4/exD/exD.py:38-43 | k law-abiding one-child couples have exactly k children |
| Population.OneSonBirths | statistics/classes_4/exD/exD.py:98-105 | k law-abiding one-son couples have exactly k boys |
| Population.EvolveFail | statistics/classes_4/exE/exE.py:120-146 | a run of generations fails only when the draws run out |
| Population.HalvingFromSizes | statistics/classes_4/exD/exD.py:38-48 | a run in which every generation is the fertile couples of the one before halves at every step |
| Population.HalvingCensus | statistics/classes_4/exD/exD.py:48 | a halving run of generations gives a population list each of whose entries is at most half the one before |
| BlackjackBust.DeckComposition | statistics/classes_4/exF/exF.py:15-21 | the deck has 52 cards, four of each of the 13 ranks, each worth between 1 and 10 points |
| BlackjackBust.PointsPerCard | statistics/classes_4/exF/exF.py:28-37 | a hand of n cards is worth between n and 10 x n points |
| BlackjackBust.PopKeepsCards | statistics/classes_4/exF/exF.py:27 | popping a card off the deck onto the drawn cards keeps every card of the full deck exactly once |
| BlackjackBust.DealingStep | statistics/classes_4/exF/exF.py:26-27 | while the score is at most 21, drawing one more card keeps the deck and the drawn cards a split of the full deck |
| BlackjackBust.DeckLeft | statistics/classes_4/exF/exF.py:26-27 | while the score is at most 21 at most 21 cards have been drawn, so the deck is not empty and `random.randrange(len(cards))` has a card to pick |
| BlackjackBust.BustedNow | statistics/classes_4/exF/exF.py:26 | the loop stops exactly when the score first passes 21 |
| BlackjackBust.PlayShape | statistics/classes_4/exF/exF.py:26-38 | a finished game's cards are worth more than 21, and without the last card at most 21; with legal indices the only failure is running out of indices |
| BlackjackBust.GameShape | statistics/classes_4/exF/exF.py:9-38 | `blackjack_game` draws at least 3 cards, and with legal indices fails only when they run out |
| BlackjackBust.BlackjackGame | statistics/classes_4/exF/exF.py:22-38 | the `while score <= 21` loop computes the game |
| BustTally.TallyCounts | statistics/classes_4/exF/exF.py:49-64 | the dictionary has the keys 0, 1, 2 and every result, and each result's entry counts the games that drew that many cards |
| BustTally.CountBelowStep | statistics/classes_4/exF/exF.py:72 | the running total grows by each key's count |
| BustTally.CountBelowGrows | statistics/classes_4/exF/exF.py:67-72 | the running total never decreases |
| BustTally.CountBelowAll | statistics/classes_4/exF/exF.py:67-72 | past the largest result the running total counts every game |
| BustTally.Bound | statistics/classes_4/exF/exF.py:68 | every key lies below the bound the sorted keys run up to, and the keys 0, 1, 2 do too |
| BustTally.RowsCards | statistics/classes_4/exF/exF.py:68-69 | the rows list the dictionary's keys, each once, in ascending order |
| BustTally.RowsCounts | statistics/classes_4/exF/exF.py:67-72 | each row counts the games that drew exactly its cards, and its running total those that drew at most its cards |
| BustTally.ReportLists | statistics/classes_4/exF/exF.py:49-72 | the rows list 0, 1, 2 and every result, each once and in order, with each key's count and running total |
| BustTally.FirstRows | statistics/classes_4/exF/exF.py:49-53 | the first three rows are for 0, 1 and 2 cards |
| BustTally.RowsCumulative | statistics/classes_4/exF/exF.py:67-72 | the running totals never decrease and the last one counts all the games |
| BustTally.EarlyRows | statistics/classes_4/exF/exF.py:49-53 | since every game draws at least 3 cards, the rows for 0, 1 and 2 cards count no game |
| BustTally.Lines | statistics/classes_4/exF/exF.py:68-71 | each printed line keeps its row's cards and count and divides its running total by `num_of_iterations` |
| BustTally.LinesPrint | statistics/classes_4/exF/exF.py:67-76 | the printed lists give 0, 1, 2 and every result in ascending order, each result's count, and the share of games that bust with at most that many cards |
| BustTally.LinesCumulative | statistics/classes_4/exF/exF.py:70 | the printed probabilities never decrease and the last one is 1 |
| BustTally.EarlyLines | statistics/classes_4/exF/exF.py:49-53 | the lines for 0, 1 and 2 cards have no pulls and probability 0 |
| BustTally.Outcomes | statistics/classes_4/exF/exF.py:59-60 | one game per set of indices, each played from a fresh deck |
| BustTally.Results | statistics/classes_4/exF/exF.py:59-60 | a successful run has one result per game, none for a negative count |
| BustTally.ResultsGames | statistics/classes_4/exF/exF.py:59-60 | the g-th result is the g-th game's |
| BustTally.OutcomesLegal | statistics/classes_4/exF/exF.py:59-60 | games played with legal indices fail only by running out of them |
| BustTally.ResultsLegal | statistics/classes_4/exF/exF.py:59-64 | with legal indices every recorded result is at least 3 and the only failure is running out of indices |
| BustTally.HandlerShape | statistics/classes_4/exF/exF.py:41-76 | zero games divide by zero; otherwise the only failure is running out of indices, and a success prints the lists `LinesPrint` describes |
| BustTally.HandlerEnds | statistics/classes_4/exF/exF.py:67-76 | the printed lists start with 0, 1 and 2 cards at probability 0 and, for a positive number of games, end at probability 1 |
| BustTally.ResultsStop | statistics/classes_4/exF/exF.py:59-60 | a game that fails stops the whole run with its error |
| BustTally.ResultsNext | statistics/classes_4/exF/exF.py:60-64 | one more game adds its result and increments its dictionary entry, or creates it at 1 |
| BustTally.PlayGames | statistics/classes_4/exF/exF.py:59-64 | the games loop computes the results and the dictionary |
| BustTally.ListRows | statistics/classes_4/exF/exF.py:67-72 | the sorted-items loop computes the rows |
| BustTally.GamesHandler | statistics/classes_4/exF/exF.py:41-76 | `games_handler` computes its printed lists |
| BustTally.PlayAll | statistics/classes_4/exF/exF.py:59-60 | the loop plays every game |
| BlackjackStrategy.DeckComposition | statistics/classes_4/exG/exG.py:39-45 | the deck has 52 cards: four each of 2..9 and 11, and sixteen 10s |
| BlackjackStrategy.LabelCounts | statistics/classes_4/exG/exG.py:39-45 | each rank label of the deck appears once, except 10, which stands for four ranks |
| BlackjackStrategy.Draw | statistics/classes_4/exG/exG.py:53 | popping a random card moves exactly one card off the deck |
| BlackjackStrategy.SumRemoveAt | statistics/classes_4/exG/exG.py:65 | removing a card from a hand lowers its points by that card |
| BlackjackStrategy.CountRemoveAt | statistics/classes_4/exG/exG.py:65 | removing a card from a hand lowers that card's count by one and leaves the others alone |
| BlackjackStrategy.DemoteShape | statistics/classes_4/exG/exG.py:63-67 | a hand over 21 holding an ace at 11 turns exactly one such ace into a 1, losing 10 points; any other hand is left as it is |
| BlackjackStrategy.DemoteCount | statistics/classes_4/exG/exG.py:65-66 | demoting an ace trades one 11 for one 1 |
| BlackjackStrategy.Lookup | statistics/classes_4/exG/exG.py:76-91 | a table lookup fails exactly when the key is missing |
| BlackjackStrategy.SoftKeys | statistics/classes_4/exG/exG.py:11-18 | the soft table has rows 6, 7, 8 and up-cards 2..11 |
| BlackjackStrategy.SoftMoves | statistics/classes_4/exG/exG.py:11-18 | the soft table stands on row 8, and on row 7 against an up-card of at most 8; it hits otherwise |
| BlackjackStrategy.HardKeys | statistics/classes_4/exG/exG.py:20-29 | the hard table has rows 11, 12, 16, 17 and up-cards 2..11 |
| BlackjackStrategy.HardMoves | statistics/classes_4/exG/exG.py:20-29 | the hard table stands on row 17, on row 16 against 2..6 and on row 12 against 4..6; it hits otherwise |
| BlackjackStrategy.BasicMoves | statistics/classes_4/exG/exG.py:73-95 | the basic strategy decides for up-cards 2..11 and hits a KeyError otherwise; holding an ace at 11 it stands exactly on 19 or more, or 18 against at most 8; without one exactly on 17 or more, 13..16 against at most 6, or 12 against 4..6 |
| BlackjackStrategy.Opened | statistics/classes_4/exG/exG.py:53-98 | the player's turn runs only after the four cards were dealt |
| BlackjackStrategy.PlayerShape | statistics/classes_4/exG/exG.py:60-98 | a player who stands has at most 21 points, at least the threshold under the threshold strategy and at least 12 under the basic one |
| BlackjackStrategy.CroupierShape | statistics/classes_4/exG/exG.py:100-106 | the croupier keeps the hand dealt, draws while under 17 and stops on 17 or more |
| BlackjackStrategy.CroupierKeeps | statistics/classes_4/exG/exG.py:106 | the croupier only adds cards to the hand |
| BlackjackStrategy.CroupierStops | statistics/classes_4/exG/exG.py:104-105 | the croupier stops only on 17 or more |
| BlackjackStrategy.CroupierBelow | statistics/classes_4/exG/exG.py:100-106 | every hand the croupier drew to was under 17 |
| BlackjackStrategy.GameVerdict | statistics/classes_4/exG/exG.py:53-108 | a busted player loses; a player who stood wins exactly when the croupier busts or scores less |
| BlackjackStrategy.AcesLose | statistics/classes_4/exG/exG.py:100-103 | a croupier dealt two aces has 22 points, so a player who stood wins at once |
| BlackjackStrategy.DrawLegal | statistics/classes_4/exG/exG.py:53 | a draw from a split of the fresh deck gives a card worth 2..11 and keeps the split; with legal indices it fails only when they run out |
| BlackjackStrategy.HandSize | statistics/classes_4/exG/exG.py:61 | a hand is worth at least one point per card |
| BlackjackStrategy.DemoteValues | statistics/classes_4/exG/exG.py:65-66 | demoting an ace keeps a hand's cards worth 1..11 and its size |
| BlackjackStrategy.PlayerTotal | statistics/classes_4/exG/exG.py:60-98 | with legal indices the player's turn fails only when they run out; a player who stood has drawn at most 23 cards in all |
| BlackjackStrategy.CroupierTotal | statistics/classes_4/exG/exG.py:100-106 | with legal indices the croupier's turn fails only when they run out |
| BlackjackStrategy.DeckFresh | statistics/classes_4/exG/exG.py:39-45 | the fresh deck is a split of itself with no card drawn |
| BlackjackStrategy.DealCards | statistics/classes_4/exG/exG.py:53-56 | the deal gives the player two cards and the croupier two, all four from the deck |
| BlackjackStrategy.DealFresh | statistics/classes_4/exG/exG.py:53-57 | after the deal the croupier's shown card is worth 2..11 |
| BlackjackStrategy.DealTotal | statistics/classes_4/exG/exG.py:53-56 | with legal indices the deal fails only when they run out |
| BlackjackStrategy.GameTotal | statistics/classes_4/exG/exG.py:32-108 | with legal indices a game fails only when they run out |
| BlackjackStrategy.PlayTotal | statistics/classes_4/exG/exG.py:111-164 | with legal indices a game from the fresh deck fails only when they run out |
| BlackjackStrategy.PlayerLoop | statistics/classes_4/exG/exG.py:138-153 | the `while not stand` loop computes the player's turn |
| BlackjackStrategy.CroupierLoop | statistics/classes_4/exG/exG.py:156-164 | the croupier's `while True` loop settles the game on the croupier's final points |
| BlackjackStrategy.StrategyGame | statistics/classes_4/exG/exG.py:111-164 | `threshold_value_strategy` and `basic_strategy` compute the game |
| StrategyHandler.Thresholds | statistics/classes_4/exG/exG.py:179 | the threshold values are 8..20 |
| StrategyHandler.Wins | statistics/classes_4/exG/exG.py:183-186 | the number of wins is at most the number of games |
| StrategyHandler.WinsCount | statistics/classes_4/exG/exG.py:183-186 | counting succeeds exactly when the first `num_of_games` games all finish, and then counts their wins; otherwise it fails with the first game's error, or runs out of games |
| StrategyHandler.WinsOk | statistics/classes_4/exG/exG.py:183-186 | counting succeeds exactly when the first `num_of_games` games all finish |
| StrategyHandler.WinsValue | statistics/classes_4/exG/exG.py:185-186 | a successful count is the number of won games |
| StrategyHandler.WinsFail | statistics/classes_4/exG/exG.py:183-186 | a failed count carries the first failing game's error, or runs out of games |
| StrategyHandler.ShareInUnit | statistics/classes_4/exG/exG.py:187 | a win ratio lies in [0, 1] |
| StrategyHandler.Rates | statistics/classes_4/exG/exG.py:192-198 | one win ratio per threshold |
| StrategyHandler.RatesShares | statistics/classes_4/exG/exG.py:192-198 | the ratios exist exactly when every threshold's games finish, and each is that threshold's wins over `num_of_games` |
| StrategyHandler.HandlerShape | statistics/classes_4/exG/exG.py:167-198 | zero games divide by zero; the report exists exactly when every game finishes, and gives each strategy's wins over `num_of_games`, each in [0, 1] |
| StrategyHandler.Outcomes | statistics/classes_4/exG/exG.py:183-185 | one outcome per seed |
| StrategyHandler.OutcomesAt | statistics/classes_4/exG/exG.py:194-196 | the g-th outcome is the game played from the g-th seed's indices |
| StrategyHandler.ThresholdOutcomes | statistics/classes_4/exG/exG.py:192-196 | one run of games per threshold 8..20, each over the same seeds |
| StrategyHandler.OutcomesOk | statistics/classes_4/exG/exG.py:183-185 | with legal indices for every seed every game finishes |
| StrategyHandler.ComparisonTotal | statistics/classes_4/exG/exG.py:167-198 | with legal indices for every seed and a non-zero number of games the report exists, with 13 threshold ratios |
| StrategyHandler.WinsStop | statistics/classes_4/exG/exG.py:183-186 | a failing game stops the count with its error |
| StrategyHandler.WinsNext | statistics/classes_4/exG/exG.py:185-186 | a won game adds one to the count, a lost one nothing |
| StrategyHandler.RatesStop | statistics/classes_4/exG/exG.py:192-198 | a threshold whose games fail stops the report with that error |
| StrategyHandler.PlayAll | statistics/classes_4/exG/exG.py:194-196 | the seeds loop plays every game |
| StrategyHandler.CountWins | statistics/classes_4/exG/exG.py:183-187 | the counting loop computes the wins |
| StrategyHandler.GamesHandler | statistics/classes_4/exG/exG.py:167-198 | `games_handler` computes the basic ratio and the threshold ratios |
| Choices.Choose | statistics/classes_4/exD/exD.py:39 | `random.choices(..., weights)[0]` returns a valid index of the weight list |
| Choices.PickFromHasWeight | statistics/classes_1/exB/exB.py:49 | the cumulative-weight search stops on an entry of positive weight whenever the scaled draw falls inside the weights' range |
| Common.Round | statistics/classes_2/exD/exD.py:69 | `round(x)` is within 1/2 of x, and an exact half goes to the even neighbour |
| Common.RoundZero | statistics/classes_2/exD/exD.py:69 | `round(x)` is 0 exactly for x in [-0.5, 0.5] |
| Common.RoundQuotientZero | statistics/classes_1/exG/exG_pt2.py:74 | `round(n / d)` is 0 exactly when 2 abs(n) <= abs(d) |
| Common.RemoveAt | statistics/classes_4/exF/exF.py:27 | `cards.pop(i)` leaves one card fewer, and putting the popped card back at i restores the deck |
| Dice.Record | statistics/classes_4/exB/exB.py:38-40 | recording appends one capital and one iteration number |
| Dice.Continue | statistics/classes_4/exB/exB.py:24-40 | continuing the game only appends to the lists recorded so far |
| Dice.ContinueOn | statistics/classes_4/exB/exB.py:27-40 | a roll that leaves the capital positive moves on to the next roll, having recorded the capital if the roll number is a multiple of 10 |
| Dice.ContinueBroke | statistics/classes_4/exB/exB.py:32-36 | a roll that bankrupts the player ends the game with the capital and the roll number recorded |
| Dice.ContinueDone | statistics/classes_4/exB/exB.py:24 | after `num_of_games` rolls the game ends with what was recorded |
| Dice.GainStep | statistics/classes_4/exB/exB.py:27-30 | one more roll changes the capital by that roll's payoff |
| LoginChain.NextState | statistics/classes_2/exC/exC.py:32-35 | a user's next state is 0 or 1 |
| LoginChain.Step | statistics/classes_2/exC/exC.py:31-35 | one iteration moves every user once and leaves each in state 0 or 1 |
| LoginChain.After | statistics/classes_2/exC/exC.py:30-35 | n iterations keep one state per user, each 0 or 1 once an iteration has run |
| LoginChain.States | statistics/classes_2/exC/exC.py:36 | one observed state per iteration, each between 0 and the number of users |
| LoginChain.PassCounts | statistics/classes_2/exC/exC.py:36 | an iteration adds one to the count of the state it ends in |
| LoginChain.PassRecords | statistics/classes_2/exC/exC.py:37-38 | an iteration appends the tracked state's frequency exactly when its number is a multiple of leap |
| LoginChain.Advance | statistics/classes_2/exC/exC.py:31-38 | one pass of the main loop keeps the loop's invariant, or fails as the whole call does |
| LoginChain.Run | statistics/classes_2/exC/exC.py:30-39 | the main loop computes `change_state`'s results and final users |
| VisitChain.Pass | statistics/classes_2/exB/exB.py:29-35 | one pass of the main loop keeps the loop's invariant |
| VisitChain.Run | statistics/classes_2/exB/exB.py:29-36 | the main loop computes `calculations_handler`'s rows |
| SingleQueue.Waiting | statistics/classes_3/exC/exC.py:55 | the queue position counts at most every earlier end time |
| SingleQueue.Admit | statistics/classes_3/exC/exC.py:52-63 | admitting a task appends one arrival, one end time and one queue position |
| SingleQueue.History | statistics/classes_3/exC/exC.py:49-63 | after k tasks each list has k entries |
| SingleQueue.Admitted | statistics/classes_3/exC/exC.py:49-52 | the loop admits tasks until the arrival time first passes `max_time`, and never more than there are |
| SingleQueue.Departures | statistics/classes_3/exC/exC.py:67-69 | one departure entry per end time |
| MatrixPowers.Product | statistics/classes_2/exA/exA.py:12-27 | multiplying an M x A matrix by an A x N matrix gives an M x N matrix |
| MatrixPowers.Power | statistics/classes_2/exA/exA.py:50-56 | every power of a square matrix is square of the same size |
| MatrixPowers.UnsettledStep | statistics/classes_2/exA/exA.py:52-56 | a power that has not settled lets the loop go on |
| RuinGames.Track | statistics/classes_1/exG/exG_pt2.py:24-36 | the tracked turns fail only for lack of draws |
| RuinGames.InteriorPositive | statistics/classes_1/exE/exE.py:22-31 | until the game ends A's capital stays strictly between 0 and the table total |
| RuinGames.CertainLossLength | statistics/classes_1/exE/exE.py:18-31 | with p = 0 a finished game lasts exactly a turns |
| RuinGames.CertainWinLength | statistics/classes_1/exE/exE.py:18-28 | with p = 1 a finished game lasts exactly b turns |
| GamblersRuin.CertainLossGame | statistics/classes_1/exB/exB.py:48-54 | with p = 0 a finished game ends with A ruined |
| GamblersRuin.CertainWinGame | statistics/classes_1/exB/exB.py:48-54 | with q = 0 a finished game ends with B ruined |
| GamblersRuin.TheoryEndpointsAtCertainWin | statistics/classes_1/exB/exB.py:24-25 | with p = 1 the closed form is 1 from capital 0 and 0 otherwise |
| GamblersRuin.FirstStepGeneral | statistics/classes_1/exB/exB.py:24-25 | outside the fair game, the general closed form at a is p times its value at a + 1 plus q times its value at a - 1 |
| GamblersRuin.GeneralValues | statistics/classes_1/exB/exB.py:24-25 | outside the fair game the closed form is ((q/p)^a - (q/p)^n) / (1 - (q/p)^n), and (q/p)^n is not 1 |
| BustTally.LinesGrow | statistics/classes_4/exF/exF.py:67-72 | dividing non-decreasing running totals by the positive game count keeps them in order, and a final total of all the games prints 1 |
| LoginChain.TrackStates | statistics/classes_2/exC/exC.py:55-56 | the tracking loop runs one `change_state` call per tracked state on the users the earlier calls left, and stops at the first failure |

## Left out

Floats are exact reals, so the model leaves out float rounding error. Where the error changes what the code does:

- Dice.Payoff: the 1.4 payout of classes_4/exC/exC.py:35-44 is exact. In floats, a start of 3 followed by five wins and ten losses leaves 1.7763568394002505e-15, so the game goes on. The model has exactly 0 there and stops the game as bankrupt at roll 15.
- Dice.Continue: the bankruptcy test `player_capital <= 0` (classes_4/exC/exC.py:40) sees the exact capital, with the difference described under `Dice.Payoff`.
- Population.Initial: `floor(num_of_people * men_factor)` (classes_4/exD/exD.py:28) is the floor of the exact product. For example, 100 x 0.57 is 57 here but 56.99999999999999 in floats, which floors to 56.
- Population.Fertile: `floor(num_of_pairs * fertility)` (classes_4/exD/exD.py:38) is likewise the floor of the exact product. For example, 100 x 0.29 is 29 here but 28.999999999999996 in floats.
- GamblersRuin.TheoryProbability: `(q/p)**n` and the quotient are exact. The float result can differ in its last bits, and a float power may round to exactly 1.0 where the exact one is not 1.

Outside the tick computations, `round(...)` is dropped:

- Dice.RollTheDices: `round(player_wins / num_of_iterations, 4)` (classes_4/exA/exA.py:26) is the exact quotient.
- Dice.TheoreticalWinChanceIsShare: `round(15/36, 4)` (classes_4/exA/exA.py:17) is exactly 15/36, not 0.4167.
- Dice.WinPerGame: `round(..., 3)` of `win_per_game` (classes_4/exB/exB.py:42, classes_4/exC/exC.py:50) is dropped.
- Dice.TheoryEvenMoney: `round(-1/6, 3)` (classes_4/exB/exB.py:59) is exactly -1/6, not -0.167.
- GamblersRuin.TheorySweepOverP: `q = round(1 - p, 1)` (classes_1/exB/exB.py:73) is the exact (10 - x)/10, which is what the rounding is there to produce.
- GamblersRuin.ExperimentalSweepOverP: the same `q = round(1 - p, 1)` (classes_1/exB/exB.py:95) is the exact (10 - x)/10.
- Common.Round: rounds the exact quotient, not the float one. The model only asks whether `round` returns 0, that is whether the quotient is at most 1/2 in magnitude, and float division answers that the same way while the operands stay below 2^53.

The queue's inter-arrival and service times are rounded by `round(x, 3)` (classes_3/exC/exC.py:51) before the model sees them, since they are inputs.

Loops that Python runs until an event of probability one read a finite list of draws instead. Running out of draws is the model's `DrawsExhausted`, which the source has no counterpart for:

- GamblersRuin.PlayToRuin: the `while A != 0 and B != 0` game fails with `DrawsExhausted` when the coins run out before a ruin.
- RuinGames.PlayRounds: the `while True` games of classes_1/exE and classes_1/exG fail the same way.
- Population.UntilSon: the one-son `while True` loop fails the same way when no boy draw is left.
- MatrixPowers.Converge: the convergence loop of classes_2/exA/exA.py is bounded by a fuel count, and exhausting it is `OutOfFuel`. Convergence itself is not proved.
- BlackjackBust.Play: a game that runs out of card indices fails with `DrawsExhausted`. With legal indices that is the only way it can fail.
- BlackjackStrategy.Play: the same holds for both strategies. With legal indices a game fails only when fewer than 52 indices are given.
- SingleQueue.Admitted: the arrival loop fails with `DrawsExhausted` when the given tasks run out before an arrival passes `max_time`.

Randomness and the rest of the `random` module:

- Choices.Choose: the `ValueError` that `random.choices` raises when the weights total 0 or less is not modelled. No caller in the scripts passes such weights, since every weight row here has a positive total.
- StrategyHandler.GamesHandler: `random.seed(seed)` per game (classes_4/exG/exG.py:183-196) is modelled by giving every strategy the same list of card indices for game g. Decks of the same size are popped in the same order, so the same seed yields the same indices.
- BlackjackStrategy.StrategyGame: `basic_strategy` and `threshold_value_strategy` are one game parameterised by the strategy, since they share the deal and the croupier's turn line for line.
- BlackjackStrategy.Lookup: the table keys `'row, up'` are pairs of integers. The formatting is one-to-one on the keys used.
- LoginChain.Run: each recorded frequency `status_dic[x] / iteration` is the exact fraction, with the count and the iteration number kept apart.
- `calculate_poisson` and `calculate_poissone` (the `log10` sampling of times in classes_3/exC) are left out: float sampling with nothing to check. Times are inputs instead.
- `generate_color` (classes_1/exG) is left out: it only picks a plot colour.

Presentation and side effects:

- The drawing itself is left out: every `print`, `plt`/`ax` call and `savefig`, and every `main`. The loops of the `show_graph` and `generate_game_grap` functions that compute data are modelled in the rows above. The tick arguments that can raise at the Python level are modelled: `LoginChain.ShowGraph`, `RuinGames.CapitalTrajectories`, `SingleQueue.CalculateTime` and `Population.CalculatePopulation`. All other tick arguments are fixed ranges or lists of matching length.
- LoginChain.ShowGraph: matplotlib's own argument checks are not modelled, since they belong to the library and vary by version. For example, with n = 1000 and leap = 6 the ticks `range(0, 168, 17)` have 10 entries and the labels `range(0, 1001, 100)` have 11; recent matplotlib versions reject that mismatch with ValueError.
- `show_graph` of classes_2/exB (exB.py:38-62) is not modelled: it only draws rows that `main` passes it. Its ticks are those of classes_2/exD, so they raise for the same n and leap as `LoginChain.ShowGraphAxis` states.
- The call at module level in classes_3/exC/zadC.py:90 is left out. It runs the draft on import.
- Monte Carlo convergence of the experimental estimates to the closed forms is left out: it is a statistical claim, not a property of any one run.
