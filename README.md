# Loyalty dashboard: derived fields, search filter and summary counters

This project models the computations of the salon's loyalty dashboard
(`src/app/dashboard/page.tsx`) over the list of clients it receives from the
server, and proves properties of them:

- the reward a client is working towards (`getNextReward`), a step function
  of the visit count with thresholds at 5, 10, 15 and 20;
- the visits still missing to the next multiple of five
  (`getVisitsUntilNextReward`, `Math.ceil(visits / 5) * 5 - visits`);
- the search box (`filteredClients`): a client is shown when its name or
  email contains the search term ignoring case, or its phone contains the
  term exactly as typed;
- the summary cards: total clients, frequent clients (ten or more visits)
  and rewards earned (the sum of `Math.floor(visits / 5)`).

The code is pure, so the model is pure: datatypes, functions and lemmas, in
four modules. `Text` holds case folding and substring search, `Rewards` the
two reward-progress columns, `Clients` the client record and the filter, and
`Summary` the counters.

Visit counts are Dafny `int`s. For a positive divisor, Dafny's `/` rounds
down, so `visits / 5` is exactly `Math.floor(visits / 5)` for every whole
count, negative counts included. `(visits + 4) / 5` is exactly
`Math.ceil(visits / 5)`.

One behaviour shows up in `Rewards.MilestoneOfLabel`. For counts below
twenty, the reward column names the reward earned at `5 * (band + 1)`. The
"Faltan" column counts the visits to that milestone only when the count is
not a multiple of five. At 0, 5, 10 and 15 visits it shows 0, although the
named reward is five visits away. The model keeps the code's behaviour.

## Model

| member | source | states |
|---|---|---|
| `Text.ToLowerChar` | src/app/dashboard/page.tsx:43-44 | folding one character leaves no upper-case letter; a folded capital moves exactly 32 code points; any other character is unchanged |
| `Text.ToLowerIdempotent` | src/app/dashboard/page.tsx:43-44 | a `toLowerCase` result holds no upper-case letter, and folding it again changes nothing |
| `Text.ToLowerFixpoint` | src/app/dashboard/page.tsx:43-44 | a string is its own lower-case form if and only if it holds no upper-case letter |
| `Text.ToLowerSlice` | src/app/dashboard/page.tsx:43-44 | folding a slice gives the same result as slicing the folded string |
| `Text.IncludesIffOccurs` | src/app/dashboard/page.tsx:43-45 | `includes(s, t)` holds if and only if `t` occurs in `s` at some position |
| `Text.IncludesBasics` | src/app/dashboard/page.tsx:43-45 | every string includes the empty string and itself; an included string is never longer than the string that includes it |
| `Text.IncludesToLower` | src/app/dashboard/page.tsx:43-44 | a match with exact case is still a match after both sides are lower-cased |
| `Rewards.NextReward` | src/app/dashboard/page.tsx:48-54 | the label is always one of the five reward labels |
| `Rewards.NextRewardIsBand` | src/app/dashboard/page.tsx:48-54 | the threshold chain gives the label at position `min(visits / 5, 4)` of the tier list (position 0 below five visits), and the label's rank is that band |
| `Rewards.TiersDistinct` | src/app/dashboard/page.tsx:49-53 | the five reward labels are pairwise different |
| `Rewards.SameRewardIffSameBand` | src/app/dashboard/page.tsx:48-54 | two visit counts get the same label if and only if they lie in the same five-visit band, counting all counts below 5 as one band and all counts from 20 on as another |
| `Rewards.NextRewardMonotone` | src/app/dashboard/page.tsx:48-54 | more visits never give an earlier reward |
| `Rewards.FinalReward` | src/app/dashboard/page.tsx:52-53 | the final label "10% descuento en uñas" is shown if and only if visits >= 20 |
| `Rewards.CeilDiv5` | src/app/dashboard/page.tsx:57 | the result `q` is the ceiling of visits / 5: `5q - 5 < visits <= 5q` |
| `Rewards.VisitsUntilNextReward` | src/app/dashboard/page.tsx:56-59 | the result lies in 0..4, visits plus the result is a multiple of five, and the result is 0 if and only if visits is a multiple of five |
| `Rewards.NextMilestoneIsLeast` | src/app/dashboard/page.tsx:56-59 | visits plus the result is the least multiple of five that is at least visits |
| `Rewards.VisitsUntilNextRewardSamples` | src/app/dashboard/page.tsx:56-59 | 0 gives 0, 3 gives 2, 5 gives 0, 6 gives 4 |
| `Rewards.MilestoneOfLabel` | src/app/dashboard/page.tsx:48-59 | for 0 <= visits < 20: the milestone `visits + remaining` is the one at which the labelled reward is earned if and only if visits is not a multiple of five |
| `Clients.FilterClients` | src/app/dashboard/page.tsx:42-46 | the result is no longer than the list, and every client in it comes from the list and matches the term |
| `Clients.FilterKeepsMatches` | src/app/dashboard/page.tsx:42-46 | no client that matches the term is left out |
| `Clients.FilterPreservesOrder` | src/app/dashboard/page.tsx:42-46 | there are strictly increasing positions that map each result entry to the list entry it came from, and a position is among them if and only if its client matches |
| `Clients.FilterAppend` | src/app/dashboard/page.tsx:42-46 | filtering two lists joined together gives the two filtered lists joined together |
| `Clients.FilterIdempotent` | src/app/dashboard/page.tsx:42-46 | filtering again with the same term changes nothing |
| `Clients.FilterAllMatch` | src/app/dashboard/page.tsx:42-46 | the list comes back unchanged if and only if every client matches |
| `Clients.EmptyTermKeepsAll` | src/app/dashboard/page.tsx:42-46 | an empty search term shows the whole list unchanged |
| `Clients.ExactNameMatchIsKept` | src/app/dashboard/page.tsx:43 | a term that occurs in the name with its exact case also matches |
| `Clients.PhoneMatchIsCaseSensitive` | src/app/dashboard/page.tsx:45 | a client whose only text is the phone "x" matches "x" but not "X", although the two terms have the same lower-case form |
| `Summary.FrequentCount` | src/app/dashboard/page.tsx:104 | the count of clients with visits >= 10 is at most the total count (line 79), and it is 0 if and only if no client has ten visits |
| `Summary.FrequentCountIsPositionCount` | src/app/dashboard/page.tsx:104 | the count equals the number of list positions whose client has at least ten visits |
| `Summary.FrequentCountAppend` | src/app/dashboard/page.tsx:104 | counting two lists joined together gives the sum of the two counts |
| `Summary.AllFrequent` | src/app/dashboard/page.tsx:79-104 | the frequent count equals the total if and only if every client has at least ten visits |
| `Summary.AppendAddsRewards` | src/app/dashboard/page.tsx:116 | appending one client to the list adds exactly that client's `visits / 5` to the rewards, and its visits to the visit sum |
| `Summary.RewardsEarnedAppend` | src/app/dashboard/page.tsx:116 | the rewards for two lists joined together are the sum of their rewards |
| `Summary.RewardsEarnedBounds` | src/app/dashboard/page.tsx:116 | with non-negative visits: rewards >= 0, 5 * rewards <= sum of visits <= 5 * rewards + 4 * number of clients, and rewards <= sum of visits / 5 |
| `Summary.Summarize` | src/app/dashboard/page.tsx:79-116 | total is the list length, frequent is at most total, and frequent equals total if and only if every client has at least ten visits |

## Left out

- Fetching the client list (`fetchClients`, src/app/dashboard/page.tsx:26-40) is left out: it is a network call that sets React state. The model takes the list as a parameter.
- The loading and error flags are left out, because they only drive rendering.
- `formatLastVisit` is left out because it depends on `Date` and on `es-MX` locale formatting. For the same reason, "Visitas Hoy" (lines 90-92) is left out: it compares dates with the current time. `lastVisit` is kept as opaque text.
- The rendered table itself (lines 139-184) is left out because it is markup. It shows `NextReward` and `VisitsUntilNextReward` for each filtered client.
- Text.ToLowerChar: folds only ASCII capitals and the Latin-1 capitals U+00C0..U+00DE (U+00D7 excluded). Other Unicode case mappings of `toLowerCase` are not modelled. That includes mappings that change a string's length.
- Text.Includes works on code points (`char`), while JavaScript strings are UTF-16. The two readings agree except across surrogate pairs.
- Visit counts are whole numbers (`int`). JavaScript's floating-point `number` semantics are not modelled: no fractions, no rounding error, no NaN.
- The registration pages, the scanner page, the layouts, the type declarations and the build configuration are not part of this model. They are network calls, wrappers around external QR libraries, markup or configuration.
