# Lead dashboard pipeline — a Dafny model

This project models the data pipeline of a Streamlit dashboard that turns a
CRM lead export (a CSV of twelve columns) into the count tables behind four
bar charts. The stages are:

1. **Column binding.** The twelve positional columns are named; a table of any
   other width is rejected.
2. **Cleaning.**
   - The stage text loses its pipeline suffixes and is upper-cased.
   - Every `.0` is removed from the tax id.
   - Leads from three blocklisted sources are dropped.
3. **Commission banding.** The commission is put into five right-closed bands.
4. **Sidebar filter.** Stage, campaign type and owner are filtered by three
   multi-selects, combined with AND. Each multi-select defaults to every
   value it has seen.
5. **The four charts.**
   - Chart 1: leads per source over the *filtered* table, largest first. It
     keeps the sources with more than two leads.
   - Chart 2: the (source, stage) cells of every source with more than five
     leads.
   - Chart 3: the (agreement, source) cells that hold more than five leads.
     They are regrouped so that agreements come in descending order of
     total, and cut down to the `n` agreements with the largest totals.
   - Chart 4: the (agreement, commission band) cells of the `n` agreements
     with the most banded leads.
   - Charts 2 to 4 read the cleaned but *unfiltered* table.
6. **Gating.** When chart 1 has no row, the dashboard shows a warning instead
   of the charts.

The modules follow the pipeline:

| module | contents |
|---|---|
| `Wrappers` | `Option`, `Result` |
| `Seqs` | filtering, subsequences, distinctness |
| `Text` | ASCII upper-casing, string order, left-to-right pattern removal (`re.sub` / `str.replace`) |
| `Leads` | cells, the lead record, column binding |
| `Clean` | stage and tax-id cleaning, blocklist |
| `Bands` | commission bands (`pd.cut`) |
| `Selection` | the sidebar filter |
| `Tally` | pandas `groupby().size()` / `.sum()`, `sort_values`, `nlargest`, `.loc` regrouping, cross tables |
| `Charts` | the four charts and the dashboard |

Four details of `hubspot-streamlit.py` are modelled as written:

- **The sales-pipeline suffix.** The pattern on line 50 has a space after the
  opening parenthesis. It therefore removes `" ( Pipeline de Vendas)"` but
  not the usual `" (Pipeline de Vendas)"`. That suffix survives cleaning and
  is upper-cased to `" (PIPELINE DE VENDAS)"`.
  - `Clean.NormaliseStageKeepsPlainVendas` proves this for any label
    without parentheses.
  - `Clean.NormaliseStageExamplePlainVendas` proves it on an example.
  - Stage cleaning itself is still idempotent (`Clean.NormaliseStageIdempotent`).
- **The tax id.** Line 52 calls `str.replace` without a `regex` argument.
  The model assumes pandas 2, where that means a literal match, so the line
  removes every occurrence of the two characters `.0`, not only a trailing
  one. Under pandas 1.x the pattern is a regular expression in which `.`
  matches any character; that reading is not modelled.
  - For a float-rendered id with no other dot, it removes exactly the
    trailing `.0` (`Clean.CleanCpfFloatText`).
  - In general the step is not idempotent: `"..00"` becomes `".0"`, which
    becomes `""` (`Clean.CleanCpfNotIdempotent`, `Clean.CleanLeadNotIdempotent`).
  - So cleaning as a whole is not idempotent.
- **Chart 3's threshold.** The threshold on line 154 applies to the
  individual (agreement, source) cells, not to whole groups.
- **Chart 3's regrouping.** Regrouping by descending total (lines 156-159)
  happens before the top-`n` cut (lines 161-163), not after it.

## Model

| member | source | states |
|---|---|---|
| Leads.BindColumns | hubspot-streamlit.py:45-47 | a table whose width is not 12 is rejected with a `SchemaMismatch` naming that width, and only then; otherwise every row becomes a lead with its twelve values named in column order |
| Leads.BindRender | hubspot-streamlit.py:45-47 | the column order is a bijection: writing a lead out as a row and binding it gives back the same lead |
| Leads.BindColumnsRender | hubspot-streamlit.py:45-47 | round trip for whole tables: binding a table of rendered leads succeeds and returns exactly those leads |
| Text.Upper | hubspot-streamlit.py:51 | upper-casing keeps the length, maps every lower-case letter to its capital, leaves every other character alone and leaves no lower-case letter |
| Text.UpperOfUpper | hubspot-streamlit.py:51 | upper-casing twice is upper-casing once |
| Text.RemoveAll | hubspot-streamlit.py:50-52 | literal pattern removal never lengthens a string and leaves a subsequence of it |
| Text.RemoveAllLeftmost | hubspot-streamlit.py:50-52 | the leftmost occurrence is the one removed: the text before it is kept and the scan resumes after it |
| Text.RemoveAllFixpoint | hubspot-streamlit.py:50-52 | removal changes a string exactly when one of the patterns occurs in it |
| Text.SortedDistinct | hubspot-streamlit.py:111 | the group keys of a `groupby`: strictly ascending, and exactly the values that occur |
| Clean.NormaliseStage | hubspot-streamlit.py:50-51 | a cleaned stage has no lower-case letter and contains none of the four pipeline suffixes |
| Clean.NormaliseStageIdempotent | hubspot-streamlit.py:50-51 | cleaning a cleaned stage changes nothing |
| Clean.NormaliseStageStripsVendas | hubspot-streamlit.py:50-51 | a stage without parentheses followed by `" ( Pipeline de Vendas)"` cleans to the upper-cased stage |
| Clean.NormaliseStageStripsDisparos | hubspot-streamlit.py:51 | a stage without parentheses followed by `" (Pipeline de Disparos)"` cleans to the upper-cased stage |
| Clean.NormaliseStageStripsDisparo | hubspot-streamlit.py:51 | a stage without parentheses followed by `" (Pipeline de Disparo)"` cleans to the upper-cased stage |
| Clean.NormaliseStageKeepsPlainVendas | hubspot-streamlit.py:50-51 | a stage without parentheses followed by `" (Pipeline de Vendas)"` keeps that suffix, upper-cased |
| Clean.NormaliseStageExamplePlainVendas | hubspot-streamlit.py:50-51 | `"ETAPA1 (Pipeline de Vendas)"` cleans to `"ETAPA1 (PIPELINE DE VENDAS)"` |
| Clean.NormaliseStageExampleDisparos | hubspot-streamlit.py:51 | `"ETAPA1 (Pipeline de Disparos)"` cleans to `"ETAPA1"` |
| Clean.CleanCpf | hubspot-streamlit.py:52 | the cleaned tax id is a subsequence of the original, and equals it exactly when no `.0` occurs in it |
| Clean.CleanCpfFloatText | hubspot-streamlit.py:52 | a dot-free id rendered from a float loses exactly its trailing `.0` |
| Clean.CleanCpfNotIdempotent | hubspot-streamlit.py:52 | `"..00"` cleans to `".0"` and then to `""` |
| Clean.DropBlocked | hubspot-streamlit.py:53 | no blocklisted source remains; every other lead stays as often as before and in order |
| Clean.DropBlockedIdempotent | hubspot-streamlit.py:53 | dropping the blocklisted sources twice is dropping them once |
| Clean.Normalise | hubspot-streamlit.py:50-53 | the cleaned table satisfies the cleaning invariant, is an ordered selection of the cleaned rows, holds every cleaned row from an allowed source exactly as many times as the cleaned table does and no row from a blocklisted source |
| Clean.CleanLeadNotIdempotent | hubspot-streamlit.py:50-53 | a lead with tax id `"..00"` changes again when cleaned a second time |
| Bands.BandOf | hubspot-streamlit.py:54-56 | a commission gets a band exactly when it is present and not negative, and it lies in that band's interval |
| Bands.BandOfExact | hubspot-streamlit.py:54-56 | the band of a commission is `b` if and only if the value lies in `b`'s interval |
| Bands.BandOfMonotone | hubspot-streamlit.py:54-56 | a larger commission never gets a lower band |
| Bands.BandOfBoundaries | hubspot-streamlit.py:54-56 | each edge belongs to the band below it (0 and 499 to the first, 1500 to the fourth), 1501 is in the top band, and negative or missing values get none |
| Bands.AllBandsOrdered | hubspot-streamlit.py:54-55 | the band list holds every band once in rank order, and the five labels are distinct |
| Selection.Observed | hubspot-streamlit.py:61-63 | the default choice lets every lead pass, and offers only stages, campaign types and owners that occur in the table |
| Selection.FilterLeads | hubspot-streamlit.py:66-70 | a lead stays exactly when its stage, campaign type and owner are all selected, as often as before and in order |
| Selection.EmptyChoiceEmptiesTable | hubspot-streamlit.py:66-70 | an empty selection on any one dimension empties the table |
| Selection.ObservedKeepsAll | hubspot-streamlit.py:61-70 | the default choice keeps the table unchanged |
| Selection.FilterMonotone | hubspot-streamlit.py:66-70 | selecting more values never removes a lead |
| Tally.CountKeys | hubspot-streamlit.py:74 | `groupby().size()`: every key that occurs, once, ascending, with its number of occurrences, which is positive |
| Tally.SortByTotal | hubspot-streamlit.py:74 | a descending sort by count is a permutation of its input |
| Tally.AboveThreshold | hubspot-streamlit.py:75 | a row stays exactly when its count exceeds the threshold; order and distinct keys are kept |
| Tally.Totals | hubspot-streamlit.py:112 | per-group sums: one row per group that occurs, ascending, carrying the sum of the group's counts |
| Tally.KeepGroups | hubspot-streamlit.py:114 | `isin` on the group column: every row of a chosen group stays, in order, and no other row |
| Tally.LargeGroups | hubspot-streamlit.py:112-114 | a cell stays exactly when its group's total exceeds the threshold |
| Tally.CrossTally | hubspot-streamlit.py:111 | two-key `groupby().size()`: each cell counts the occurrences of its pair; every pair that occurs has its cell; no pair has two cells; cells are ordered by group ascending, then by the position of the sub-key in `subs` |
| Tally.CrossTallyGroupSum | hubspot-streamlit.py:111-112 | a group's cells sum to the group's number of rows |
| Tally.RankedTotals | hubspot-streamlit.py:156 | group totals sorted descending: ranked, one row per group, each carrying its group's sum |
| Tally.Reorder | hubspot-streamlit.py:157-159 | `.loc` by the ranked keys: exactly the rows of the listed groups, each as often as before |
| Tally.ReorderGrouped | hubspot-streamlit.py:157-159 | after regrouping, the groups follow the order of the ranked keys |
| Tally.ReorderKeepsGroups | hubspot-streamlit.py:157-159 | regrouping keeps each group's rows in their original relative order |
| Tally.GroupSumReorder | hubspot-streamlit.py:157-159 | regrouping leaves each group's total unchanged |
| Tally.RegroupByTotal | hubspot-streamlit.py:156-159 | the regrouped table is a permutation in which group totals never increase and each group keeps its internal order |
| Tally.RegroupTotals | hubspot-streamlit.py:156-159 | regrouping keeps the set of groups and every group's total |
| Tally.TopN | hubspot-streamlit.py:161-162 | `nlargest(n).index` gives `min(n, #groups)` distinct keys; a key is chosen exactly when fewer than `n` groups outrank it, and every chosen key outranks every dropped one |
| Tally.KeepTopN | hubspot-streamlit.py:199-202 | exactly `min(n, #groups)` groups stay, with all their rows and nothing else; each kept group beats each dropped one on total, with ties going to the smaller key |
| Tally.TopGroups | hubspot-streamlit.py:156-163 | the same guarantee for the regrouped table, stated against the totals of the table before regrouping |
| Charts.LeadsPorOrigem | hubspot-streamlit.py:74-75 | chart 1: a source appears exactly when it has more than two filtered leads; its count is that number; counts never increase down the table |
| Charts.PairCells | hubspot-streamlit.py:111 | the two-column cross table of text keys, each group summing to the group's row count, in ascending (group, sub-key) order |
| Charts.FunilTotals | hubspot-streamlit.py:111-112 | a source's total over its stage cells is its number of leads |
| Charts.FunilPorOrigem | hubspot-streamlit.py:111-114 | chart 2: a stage cell appears exactly when its source has more than five leads in the cleaned table |
| Charts.ConvenioKept | hubspot-streamlit.py:153-154 | a cell appears exactly when it holds more than five leads of its agreement and source |
| Charts.ConvenioPorOrigem | hubspot-streamlit.py:153-163 | chart 3: exactly `min(n, #agreements)` agreements, with all their kept cells, in regrouped order; none left out beats one kept |
| Charts.BandPairs | hubspot-streamlit.py:197 | each (agreement, band) pair occurs once per lead of that agreement whose commission lies in that band; unbanded leads contribute nothing |
| Charts.BandPairsCount | hubspot-streamlit.py:197 | an agreement has one pair per banded lead |
| Charts.ComissaoCells | hubspot-streamlit.py:197 | every banded lead is counted in its (agreement, band) cell, and an agreement's cells sum to its number of banded leads; cells are ordered by agreement ascending, then by band |
| Charts.ConvenioPorComissao | hubspot-streamlit.py:197-202 | chart 4: exactly `min(n, #agreements)` agreements with all their band cells; each kept agreement beats each dropped one |
| Charts.Compute | hubspot-streamlit.py:77-239 | there is nothing to show exactly when no source has more than two filtered leads |
| Charts.ChoiceOnlyFiltersChartOne | hubspot-streamlit.py:111-202 | charts 2 to 4 are the same whatever the sidebar choice |
| Charts.EmptyChoiceShowsNothing | hubspot-streamlit.py:66-77 | deselecting every value of one filter leads to the warning |
| Charts.DefaultChoiceCountsAll | hubspot-streamlit.py:61-77 | with the default choice, chart 1 counts the whole cleaned table |
| Charts.Run | hubspot-streamlit.py:45-77 | the whole pipeline fails exactly when the export does not have twelve columns, with that width; otherwise it yields the dashboard of the bound and cleaned table, so every chart guarantee applies to the export's rows |

## Left out

- **Presentation.** Streamlit widgets, Plotly figures, styling and layout
  are not modelled. The charts' tables are the output.
- **Widget parameters.** The two `number_input` limits become parameters
  `n3` and `n4` of type `nat`. The widget's lower bound of 1 is not imposed,
  because the model's guarantees also hold for 0.
- **CSV parsing.** `pd.read_csv` is not modelled. The model starts from a
  rectangular table of cells, each holding text, a number with its printed
  form, or a missing value.
- **Key columns.** Stage, source, agreement, campaign type and owner are
  taken as text.
  - Stage and tax id go through `astype(str)` first (lines 50-52). The
    model does the same: a missing value becomes `"nan"` and a number its
    printed form.
  - The model binds source, agreement, campaign type and owner the same
    way (`Leads.BindRow`), although the code never applies `astype(str)` to
    them. So a missing source, agreement, campaign type or owner becomes
    the key `"nan"`. Such a lead is counted under `"nan"` in chart 1 and
    forms a `"nan"` group in charts 2-4. pandas instead drops missing keys
    from every `groupby` (lines 74, 111, 153, 197). The model's charts
    therefore differ from the code's whenever one of these four columns
    has a missing value.
- **Non-numeric commissions.** A commission column holding text makes
  `pd.cut` raise. The model gives such a value no band instead.
- **Floating point.** Commissions are exact reals. NaN and infinite values
  are not modelled.
- **Unicode.** Upper-casing covers ASCII letters only. Python's `str.upper`
  also maps accented and other non-ASCII letters.
- Tally.SortByTotal: `sort_values` uses an unstable quicksort, so the
  order of tied counts is unspecified. The model breaks ties by ascending
  key. The chart contracts promise only non-increasing counts and totals,
  except where `nlargest` fixes the tie rule: ties go to the smaller key,
  which is modelled exactly.
- Tally.TopN: the model returns the chosen keys in rank order. Only the set
  of chosen keys matters to the charts.
- **Lead ids.** Uniqueness of lead ids is not checked. The code never relies
  on it, since `id` is only counted.
