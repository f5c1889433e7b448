# Risk analysis of loan contracts — a Dafny model of the computational core

The system reads a table of loan contracts (client id, contract value, term in
months, risk score, delinquency flag, contract date) and runs a three-stage
batch pipeline over it:

1. **Risk classifier** (`avaliar_risco`): an ordered threshold table
   `FAIXAS_RISCO` = ALTO 0.7, MEDIO 0.4, BAIXO 0.0 is scanned in order and the
   first band whose lower bound lies strictly below the score is returned.
2. **Per-client aggregator** (`tabela_agregada`): records are grouped by
   client; each client gets a row with its contract count, total value, mean
   term, mean score, band of the mean score, delinquency count, delinquency rate
   and the year-month of its last contract. An input without clients raises an
   error.
3. **Band summariser** (`analise_de_risco_agregada`): for every configured
   band, in table order, the number of clients in the band, the
   contract-weighted delinquency rate (summed delinquencies over summed
   contracts) and the contract-weighted mean contract value.

Files:

- `types.dfy` — `Option`, `Result` and the two errors (`NoClients` for the
  `KeyError` of an empty table, `ZeroContracts` for the division by zero of a
  band without contracts).
- `dates.dfy` — a contract date as the three numbers written in the file, and
  the two orders on dates (see below).
- `risk_bands.dfy` — the threshold table as an explicit `seq<(string, real)>`
  and the first-match classifier, a recursive function.
- `aggregation.dfy` — records, the specification of a client's row by
  filtering and summing, the aggregate table as a `map`, and the imperative
  aggregator: a loop over the client set that fills the map, and for each
  client a loop that rescans all records.
- `summary.dfy` — the band summary as a function and as a loop over the bands
  that rescans the rows for each band.
- `pipeline.dfy` — what the summariser yields on tables the aggregator made.

Numbers are Dafny `real` (no IEEE rounding). The delinquency flag is an `int`
because the code sums the column; the rate properties assume 0/1 flags. The
threshold table is a parameter `bands` of the classifier, the aggregator and
the summariser; `FaixasRisco` is the configured value. The aggregate table is a
`map` from client id to row; the summariser reads a `seq` of rows, and
`Rows(t, ids)` lists the map's rows in any order `ids` (the code's order comes
from iterating a set and carries no meaning).

Where the code and its documentation disagree, the model follows the code:

- A score of 0.0 or less matches no band and the classifier returns nothing
  (`None`); the docstring promises BAIXO for every score up to 0.4.
- A band with no client makes the summariser divide the integer 0 by 0, which
  raises; the model returns `Failure(ZeroContracts(band))` for the first band
  without contracts in table order, and no fallback value is produced. (On rows
  the aggregator made, a band has no contracts exactly when it has no client;
  see "Left out" for hand-made rows.)
- Dates are parsed with `'%Y-%M-%d'`, where `%M` is the minute: the parsed
  timestamps compare by (year, day, month), not by (year, month, day). The
  model keeps this order (`DateOrder.AsParsed`) and states the calendar order
  (`DateOrder.Calendar`) beside it, with a lemma showing an input on which the
  reported "month of the last contract" differs (2023-01-15 is taken as later
  than 2023-03-02) and a lemma that the two agree when all dates share their
  day of month.

## Model

| member | source | states |
|---|---|---|
| `RiskBands.FaixasRisco` | main.py:6-10 | the configured table: ALTO above 0.7, MEDIO above 0.4, BAIXO above 0.0, in that scanning order |
| `RiskBands.ConfiguredTableIsOrdered` | main.py:4-10 | the configured table names ALTO, MEDIO, BAIXO once each, with bounds strictly descending in table order |
| `RiskBands.Classify` | main.py:24-26 | the answer is absent exactly when the score is at or below every bound; otherwise it is the label of an entry whose bound is strictly below the score and all earlier bounds are not |
| `RiskBands.ClassifyFirstMatch` | main.py:24-26 | the first entry whose bound is strictly below the score decides the band |
| `RiskBands.ClassifyAnswersALabel` | main.py:24-26 | the classifier only answers with a label of the table |
| `RiskBands.ConfiguredBands` | main.py:6-26 | with the configured table: above 0.7 is ALTO, (0.4, 0.7] MEDIO (0.7 itself is MEDIO), (0.0, 0.4] BAIXO, and 0.0 or less gets no band |
| `RiskBands.ClassifyMonotone` | main.py:4-10 | with bounds in descending order and distinct labels a larger score never lands in a band listed later |
| `ContractDates.Key` | main.py:59-61 | the key the parsed timestamps compare is (year, day, month), the calendar's is (year, month, day); either key determines the date, so no two dates tie |
| `ContractDates.NotAfter` | main.py:59-61 | every date is not after itself; the year decides first; under the parsed order an earlier day of the month is never later whatever the months, under the calendar order an earlier month |
| `ContractDates.MonthOf` | main.py:61 | definition: `'%Y-%M'` prints the year and the written month of a parsed date, the day dropped |
| `ContractDates.NotAfterIsTotalOrder` | main.py:59-61 | both date orders are total: reflexive, total, antisymmetric (no two distinct dates tie) and transitive |
| `ContractDates.OrdersAgreeOnSameDay` | main.py:59 | on dates sharing their day the parsed order and the calendar order agree |
| `Aggregation.Clients` | main.py:44 | the set of client ids of the input, empty exactly when the input is |
| `Aggregation.RecordsOf` | main.py:48-51 | a client has records exactly when its id occurs in the input |
| `Aggregation.RecordsOfMembers` | main.py:48-51 | the client's records are exactly the input records carrying its id |
| `Aggregation.SumValue` | main.py:65 | the total contract value of a group, summed in input order |
| `Aggregation.SumTerm` | main.py:66 | the summed terms of a group, which `AggregateOf` divides by the contract count |
| `Aggregation.SumScore` | main.py:56 | the summed scores of a group, which `AggregateOf` divides by the contract count (bounds in `ScoreSumBounds`) |
| `Aggregation.Delinquencies` | main.py:55 | the summed delinquency flags of a group (bounds in `DelinquencyCount`) |
| `Aggregation.Latest` | main.py:59-61 | the date picked is one of the group's dates and no date of the group comes after it in the chosen order |
| `Aggregation.AggregateOf` | main.py:54 | a client's contract count is the number of its records, at least one |
| `Aggregation.ClientTable` | main.py:42-71 | one row per distinct client id, the aggregate of exactly that id's records (keys and rows pinned down by `IsClientTable` and `TableRow`) |
| `Aggregation.Aggregate` | main.py:44-74 | the aggregation fails, with the no-client error, exactly when the input is empty; otherwise its keys are exactly the distinct client ids |
| `Aggregation.ClientRow` | main.py:47-71 | rescanning all records yields the row of exactly that client's records |
| `Aggregation.IsClientTable` | main.py:44-74 | a table with exactly the clients as keys and each client's specified row is the specified table |
| `Aggregation.AggregateTable` | main.py:42-74 | the loop over the client set builds exactly the specified table, or the error when it stays empty |
| `Aggregation.AggregateOfMeans` | main.py:54-70 | contract count, mean score and mean term times the count give the sums, total value and delinquency count are the sums, the rate times the count is the delinquency count, the band is the classification of the mean score |
| `Aggregation.TableRow` | main.py:47-71 | each table row is the aggregate of the non-empty group of records carrying that id |
| `Aggregation.MeanScoreBetween` | main.py:56 | a client's mean score lies between any lower and upper bound of its contract scores |
| `Aggregation.MeanScoreAbove` | main.py:56 | if every contract score exceeds a bound, so does the mean score |
| `Aggregation.ConfiguredBandOfClient` | main.py:56-68 | with the configured table a client has no band exactly when its mean score is 0.0 or less; all-positive scores always give a band, all non-positive scores never do |
| `Aggregation.DelinquencyCount` | main.py:55 | with 0/1 flags the delinquency count is between 0 and the record count, 0 exactly when no record is delinquent and the record count exactly when all are |
| `Aggregation.ClientRateBounds` | main.py:55-70 | with 0/1 flags the rate lies in [0, 1], is 0 exactly when no contract is delinquent and 1 exactly when all are |
| `Aggregation.LastContractMonth` | main.py:59-61 | the reported month is the year-month of one of the client's records that no other record follows in (year, day, month) order |
| `Aggregation.LatestOnSameDay` | main.py:59-61 | when all of a client's dates share their day, the parsed order picks the calendar's latest date |
| `Aggregation.LatestIsNotCalendarLatest` | main.py:59-61 | for contracts on 2023-01-15 and 2023-03-02 the code reports 2023-01 while the calendar's latest month is 2023-03 |
| `Aggregation.RecordCountsAddUp` | main.py:48-51 | the record counts of distinct clients add up to the number of records of those clients |
| `Aggregation.RowsCountRecords` | main.py:54-64 | rows whose contract count is their client's record count add up, in any listing, to those clients' record counts |
| `Aggregation.TotalContracts` | main.py:110 | definition: the summed contract counts of some rows, in row order; over a whole aggregate table it is the record count (`TotalContractsIsRecordCount`) |
| `Aggregation.TotalContractsIsRecordCount` | main.py:44-64 | read in any order, the rows' contract counts add up to the number of input records |
| `PortfolioSummary.InBand` | main.py:99-101 | the band's rows are exactly the rows whose band is that band |
| `PortfolioSummary.TotalDelinquencies` | main.py:111 | the band's total delinquencies, not negative when no row's count is |
| `PortfolioSummary.TotalValue` | main.py:114 | the band's total contract value, not negative when no row's value is |
| `PortfolioSummary.SummaryOf` | main.py:99-117 | one band fails with a division by zero exactly when its rows add up to no contracts; otherwise it carries the band's name and number of rows |
| `PortfolioSummary.Summary` | main.py:95-119 | on success one entry per configured band, in table order, each the summary of that band alone |
| `PortfolioSummary.SummaryFailsAtFirstEmptyBand` | main.py:95-119 | the summary fails exactly when some band has no contracts, with the error of the first such band |
| `PortfolioSummary.ScanBand` | main.py:99-114 | one pass over the rows totals exactly the band's clients, contracts, delinquencies and value |
| `PortfolioSummary.SummarizeBands` | main.py:95-119 | the loop over the bands computes exactly the specified summary, stopping at the first band without contracts |
| `PortfolioSummary.FailureExtends` | main.py:97-112 | once a band fails, the rest of the table does not change the outcome |
| `PortfolioSummary.DelinquenciesWithinContracts` | main.py:110-111 | if each row's delinquencies lie between 0 and its contracts, so do the totals |
| `PortfolioSummary.BandRateBounds` | main.py:110-112 | under the same condition every band rate lies in [0, 1] |
| `PortfolioSummary.ContractsAtLeastRows` | main.py:103-110 | rows of at least one contract each add up to at least as many contracts as rows |
| `PortfolioSummary.EmptyBandFails` | main.py:103-112 | when every row has a contract, the summary fails exactly when some configured band has no client |
| `PortfolioSummary.WeightedRatesAreDelinquencies` | main.py:105-111 | when each row's rate is its delinquencies over its contracts, the contract-weighted sum of rates is the total of delinquencies |
| `PortfolioSummary.BandRateIsContractWeighted` | main.py:105-112 | a band's rate is the mean of its clients' rates weighted by their contract counts |
| `PortfolioSummary.WeightedRateIsNotMeanOfRates` | main.py:105-115 | clients with (10 contracts, 5 delinquent) and (2, 0) give a band rate of 5/12, not the mean 1/4 of their rates |
| `PortfolioSummary.HitsOfDistinct` | main.py:95-100 | with distinct band names a band value matches at most one entry, exactly one when it is a name of the table |
| `PortfolioSummary.BandClientsStep` | main.py:97-103 | one more row adds to the band counts as many as the entries its band matches |
| `PortfolioSummary.ClientsPartitioned` | main.py:97-103 | with distinct band names the band client counts plus the rows with no listed band add up to the number of rows |
| `Pipeline.RowFacts` | main.py:54-70 | every aggregated row has a contract, a rate equal to delinquencies over contracts, a band absent or from the table, and with 0/1 flags no more delinquencies than contracts |
| `Pipeline.GroupRow` | main.py:54-70 | the row of any non-empty group of records has a contract, a rate equal to delinquencies over contracts, a band absent or from the table, delinquencies equal to the group's summed flags, and with 0/1 flags no more delinquencies than contracts |
| `Pipeline.AggregatedRows` | main.py:76-80 | every row of the table, read in any order, has a contract, a rate equal to delinquencies over contracts, a band absent or from the table, and with 0/1 flags no more delinquencies than contracts |
| `Pipeline.SummaryFailsOnEmptyBand` | main.py:97-112 | summarising an aggregate table fails exactly when some configured band has no client |
| `Pipeline.SummaryRatesOfAggregate` | main.py:105-112 | on an aggregate table every band rate is the contract-weighted mean of its clients' rates and with 0/1 flags lies in [0, 1] |
| `Pipeline.SummaryCountsEveryClientOnce` | main.py:97-103 | with distinct labels, the band client counts plus the clients without a band add up to the number of distinct clients in the input |
| `Pipeline.UnlistedAreUnbanded` | main.py:97-103 | on aggregated rows, the rows matching no table entry are exactly the rows with no band |
| `Pipeline.EnumerationSize` | main.py:44-47 | a listing of the client set without repetition has as many entries as the set |

## Left out

- Reading the contract file and a saved aggregate table (`pd.read_csv`), writing
  the aggregate table and the dataset export (`escrever_tabela_agregada`,
  `escrever_dataset`, which only select and order columns), and turning the
  nested dict into a DataFrame with the id as a column: foreign library I/O.
  The model's table is the `map` the nested dict holds.
- `printar_dados_de_risco`: console formatting only.
- The interactive menu loop and its `tem_tabela` flag: input/output
  orchestration. Reading a table from a file (option 2, main.py:193-196) does
  not set `tem_tabela`, so the summary only runs on such a table after an
  earlier aggregation. Summarising a table read back from a file is not
  modelled, and it fails in one of three ways:
  - a file written by `escrever_tabela_agregada` (main.py:128-130) has no
    `faixa_risco` column, so the summary raises `KeyError` at main.py:100;
  - a file written by `escrever_dataset` (main.py:150-152) has `faixa_risco` but
    no `inadimplencias`, so it raises `KeyError` at main.py:111 when the first
    band has rows;
  - with that same file, when the first band has no rows the comprehension
    never reads the missing column, and 0/0 raises `ZeroDivisionError` at
    main.py:112.
- Parse failures inside the aggregator: `strptime` runs in `tabela_agregada`
  (main.py:59), so a date it rejects (a day outside 1–31 for January, which is
  the month every parsed timestamp has, or a written month outside 00–59, since
  `%M` is the minute) raises `ValueError` from the aggregator; a non-numeric
  cell makes its column a string column, and the sums at main.py:55-56 and
  65-66 then raise `TypeError`, also from the aggregator. The model's `Date`
  holds any three integers and its `Error` type has only the two cases above, so
  neither failure is represented. Conversely the code silently accepts written
  months 13–59 and dates such as 2023-02-30, which the model also accepts, since
  it keeps the numbers as written; `strftime('%Y-%M')` is the pair (year,
  written month).
- Floating-point rounding and NaN: values, scores and rates are `real`.
- Missing client ids: a missing id is read as NaN, and `NaN == NaN` is false at
  main.py:50, so that client's index list is empty, its contract count is 0 and
  the division at main.py:56 raises `ZeroDivisionError` from the aggregator. The
  model's client id is a string that always equals itself, so this failure is
  not represented.
- PortfolioSummary.SummaryOf: a band with rows whose contract counts add up to
  0 gets `Failure(ZeroContracts(band))`, but in the code only a band with no
  rows raises (`sum([])` is the integer 0); a non-empty band divides numpy
  integers by zero, which yields nan or inf with a warning instead of an
  exception. No aggregated table has such a band: every aggregated row has at
  least one contract (`Pipeline.RowFacts`), so on those tables the failure
  happens exactly for a band without clients (`Pipeline.SummaryFailsOnEmptyBand`).
- The per-column recomputation of the same sums (the delinquency sum is
  computed twice in the code) is collapsed: each figure is computed once.
