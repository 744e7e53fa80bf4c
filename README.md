# A* street routing over a Prolog solver — Dafny model

The application finds a driving route between two streets of a city.
An exporter (`src/get_map.py`) turns a downloaded street graph into Prolog facts:
- one `location(i, 'Intersection i').` line per node;
- one `street(u, v, d, 'name').` line per road segment.

Two front ends read those facts back:
- a command-line tool (`find_path.py`);
- a five-step web page (`exemple_streamlit.py`).

Each front end lets the user settle on a start and an end street and one node on each. It then asks an external SWI-Prolog A* program for the path. It does this through a small adapter (`src/astart_prolog_adapter.py`), or through the same steps written inline in the command-line tool.

The model covers the deterministic core of all four files.

- `text.dfy` holds the Python string operations the code relies on:
  - `strip()` and `strip('[]')`;
  - `split`, `join`, `isdigit`/`int`, `str(n)`;
  - the apostrophe escape `replace("'", "\\'")`.
- `street_data.dfy` holds `get_street_nodes` and `get_node_options`:
  - a staged recogniser for the street-fact regular expression;
  - the accumulating loop over file lines;
  - the node-pair filter.
- `selection.dfy` holds the command-line retry loops `select_street`, `select_node_pair` and `choose_node_from_pair`:
  - each answer line is read the way `int()` reads it;
  - a loop consumes answers until one is in range.
- `prolog_adapter.dfy` holds the solver exchange:
  - the adapter configuration and its defaults;
  - the goal string and the argument vector;
  - the split of standard output into a path line and a cost line;
  - the tolerant list parser;
  - the branching of `find_path`.
- `find_path_cli.dfy` holds the command-line `main`.
- `workflow.dfy` holds the web page as a pure state machine on its session dictionary:
  - one `Pass` per run of the script;
  - each select box is an input, the position the user selected;
  - `PassAsWritten` is the page as its code behaves: every select box reports its first entry, because the page reruns itself in the same run that first draws the box (see Findings).
- `session.dfy` holds the same page as a `Session` object. Its methods update the dictionary's entries in place, and each method is proved to reach the state `Pass` describes.
- `get_map.dfy` holds the `CityGraphBuilder` class:
  - node renumbering;
  - edge translation with name normalisation;
  - the lines `save_to_file` writes.
- `export_read_back.dfy` proves what the street-line parser makes of the exporter's lines.

Process execution, files and widgets are parameters of the model. The solver run is a function from the argument vector to the process result. The file contents are sequences of lines. The user's typed lines and widget choices are inputs. The fuzzy street-name matcher (`find_best_match`) is a function parameter that returns the candidate names.

## Model

| member | source | states |
|---|---|---|
| Text.Split | src/astart_prolog_adapter.py:114 | `str.split(sep)` gives at least one piece, none holding the separator, and joining the pieces with the separator gives back the text |
| Text.SplitJoin | find_path.py:176 | splitting a join of separator-free pieces gives back the pieces |
| Text.SplitMany | src/astart_prolog_adapter.py:62-63 | the split has at least two pieces exactly when the separator occurs |
| Text.TrimStartSpec | find_path.py:96 | left stripping removes exactly the leading run of dropped characters and stops at a kept one |
| Text.TrimEndSpec | find_path.py:96 | right stripping removes exactly the trailing run of dropped characters |
| Text.TrimExact | find_path.py:179 | stripping blanks around a text that starts and ends with kept characters gives that text |
| Text.Show | src/astart_prolog_adapter.py:76 | `str(n)` of a natural number is a non-empty digit string with no leading zero except for 0 |
| Text.ShowRoundTrip | find_path.py:98-99 | the digits of `str(n)` read back as `n` |
| Text.ShowInjective | src/astart_prolog_adapter.py:76 | different numbers print differently |
| Text.Escape | src/get_map.py:28 | every apostrophe of the escaped name is preceded by a backslash; names without apostrophes are unchanged |
| Text.UnescapeEscape | src/get_map.py:28 | escaping loses nothing: undoing it recovers the name |
| Text.EscapeAppend | src/get_map.py:28 | escaping works piece by piece |
| StreetData.MatchStreetFact | find_path.py:93-97 | a matched line starts with `street(` and gives a non-empty name without apostrophes |
| StreetData.ParseStreetLine | find_path.py:96-101 | a line yields a record only when its stripped text starts with `street(`, and the name is non-empty and apostrophe-free |
| StreetData.MatchStreetFactAccepts | find_path.py:93 | every line of the shape `street(` digits `,` blanks digits `,` comma-free field `,` blanks `'` non-empty apostrophe-free name `').` anything is matched, giving the name and the two numbers |
| StreetData.MatchStreetFactSound | find_path.py:93 | every line the pattern matches has that shape, and the record is the three groups |
| StreetData.SpanWhileMaximal | find_path.py:93 | a greedy run covers exactly the leading characters of its class |
| StreetData.GetStreetNodes | find_path.py:91-102 | the loop returns one record per accepted stripped line, in file order, and no more records than lines (identical at exemple_streamlit.py:182-193) |
| StreetData.StreetNodes | find_path.py:91-102 | no more records than lines; every record has a valid name and is the record of one of the file's lines |
| StreetData.CollectFrom | find_path.py:95-101 | every collected record is what the pattern gives for some line of the file |
| StreetData.StreetNodesAppend | find_path.py:95-101 | the records of two consecutive parts of a file are those of each part, in order |
| StreetData.CollectSkipsRejected | find_path.py:97 | lines the pattern does not match contribute nothing |
| StreetData.CollectAllAccepted | find_path.py:97-101 | when every line matches, the i-th record is the i-th line's |
| StreetData.CollectLength | find_path.py:95-101 | never more records than lines |
| StreetData.NodeOptions | find_path.py:126-128 | the pairs of exactly the records with that name, no more than there are records; every named record's pair is present (identical at exemple_streamlit.py:200-202) |
| StreetData.NodeOptionsAppend | find_path.py:127 | options keep record order |
| StreetData.NodeOptionsCount | find_path.py:127 | there is one option per record with that name, duplicates kept |
| StreetData.MatchedNameHasOptions | find_path.py:104-107 | when the matcher keeps its promise (at most five names, each a name of some record), every name it offers has at least one node pair |
| Selection.ReadDigitsValue | find_path.py:118 | a digit string reads as its decimal value; anything else is rejected |
| Selection.ReadInt | find_path.py:118 | a digit string reads as its decimal value; a sign followed by a digit string reads as that value, negated after `-` (so `+3` is 3 and `-007` is -7); a negative reading comes from a leading minus sign |
| Selection.ReadIntShow | find_path.py:118 | every integer printed in decimal reads back as itself |
| Selection.ParseAnswer | find_path.py:118 | an answer line is accepted exactly when, once stripped, it is a digit string, optionally after one sign; a digit string reads as its decimal value, a signed one as that value negated after `-` and kept after `+`, and a negative reading has a leading minus |
| Selection.ParseAnswerShow | find_path.py:118 | a number surrounded by blanks is read as that number |
| Selection.ParseAnswerRejects | find_path.py:123-124 | a line holding any character other than a sign or a digit once stripped is rejected (ValueError) |
| Selection.FirstAccepted | find_path.py:116-124 | the retry loop settles on the first in-range answer; all earlier answers were out of range or not numbers |
| Selection.FirstAcceptedSkips | find_path.py:121-124 | rejected answers only shift where the accepted one is found |
| Selection.FirstAcceptedIgnoresLater | find_path.py:119-120 | answers after the accepted one are never read |
| Selection.StreetChoice | find_path.py:109-124 | a sole match is chosen without reading input; otherwise input ends exactly when no answer is in range, and the choice is `matches[k-1]` for the first in-range answer `k`, every earlier answer having been rejected |
| Selection.PairNodeChoice | find_path.py:150-165 | input ends exactly when no answer is 1 or 2; the first such answer picks the first or the second node, every earlier answer having been rejected |
| Selection.NodePairChoice | find_path.py:130-148 | no node pair means no choice (IndexError); a sole pair gives its first node without reading input; otherwise the node chosen is an end of an offered pair and no more answers are read than were typed |
| Selection.NodePairChoiceSpec | find_path.py:137-148 | with several pairs, input ends exactly when no answer is in 1..n or no answer 1 or 2 follows the first one that is; otherwise the first answer `k` in 1..n selects pair `k`, and the first answer 1 or 2 after it selects that pair's first or second node, every answer in between having been rejected |
| Selection.NodePairChoiceTyped | find_path.py:137-162 | after rejected attempts at either prompt, typing pair `k` and then `c` in 1..2 gives node `c` of pair `k`, having read exactly those answers |
| Selection.PairNodeChoiceTyped | find_path.py:155-162 | after rejected attempts, typing 1 or 2 picks the pair's first or second node |
| Selection.SelectStreet | find_path.py:109-124 | the loop returns a listed match (the sole one without reading input), counts the lines it read, and agrees with the choice function |
| Selection.StreetChoiceTyped | find_path.py:116-120 | after rejected answers, typing `k` in 1..n selects `matches[k-1]` |
| Selection.ChooseNodeFromPair | find_path.py:150-165 | the answer 1 or 2 picks the first or second node; any other answer is asked again |
| Selection.SelectNodePair | find_path.py:130-148 | the loop agrees with the choice function; the node returned is an end of one of the offered pairs, and no more answers are read than were typed |
| PrologAdapter.PrologGoal | src/astart_prolog_adapter.py:70-79 | the goal starts with `astar(` and names its start and end nodes in that order, recoverably |
| PrologAdapter.PrologGoalInjective | src/astart_prolog_adapter.py:70-79 | different node pairs give different goals |
| PrologAdapter.PrologGoalExample | src/astart_prolog_adapter.py:73 | the goal for 1 and 5 is `astar(1, 5, Path, Cost), write(Path), nl, write(Cost), halt.` |
| PrologAdapter.SwiplCommand | src/astart_prolog_adapter.py:81-91 | the argument vector has six entries: the configured executable, `-q`, `-s`, the configured program file, `-g`, the goal |
| PrologAdapter.PathCommandCarriesNodes | src/astart_prolog_adapter.py:25-27 | the command names the configured executable and program, and its goal carries the two nodes |
| PrologAdapter.ExtractPrologOutput | src/astart_prolog_adapter.py:58-68 | two lines are found exactly when the output has a newline; they are the first two lines, newline-free, and later lines are ignored |
| PrologAdapter.ExtractTwoLines | src/astart_prolog_adapter.py:62-66 | output whose first two lines are a path and a cost gives back exactly those two lines |
| PrologAdapter.KeepNumbers | src/astart_prolog_adapter.py:117 | no more numbers than tokens |
| PrologAdapter.KeepNumbersCounts | src/astart_prolog_adapter.py:117 | all tokens are kept exactly when each stripped token is a digit string; none is kept exactly when none is |
| PrologAdapter.KeepNumbersAppend | src/astart_prolog_adapter.py:117 | kept numbers stay in token order |
| PrologAdapter.ParsePrologList | src/astart_prolog_adapter.py:105-117 | the list is empty exactly when no comma-separated piece of the bracket-stripped text is, once stripped, a digit string |
| PrologAdapter.ParsePrologListRender | src/astart_prolog_adapter.py:105-117 | any list of naturals printed as `[a,b,...]` parses back to itself |
| PrologAdapter.ParsePrologListExample | find_path.py:167-179 | `'[1,2,3]'` parses to `[1, 2, 3]` |
| PrologAdapter.FindPath | src/astart_prolog_adapter.py:23-56 | each ending has an exact condition. The executable is missing exactly when running it fails, with the configured executable named. A non-zero return code gives its error text. A successful run whose stripped output has no line break means no path. Otherwise path and cost come together from the first two lines of the stripped output |
| PrologAdapter.BlankOutputMeansNoPath | src/astart_prolog_adapter.py:40-52 | empty or blank output from a successful run means no path |
| PrologAdapter.StripPrinted | src/astart_prolog_adapter.py:40 | stripping the solver's printed answer removes whatever whitespace follows the cost line; the path line, the newline and the cost line stay |
| PrologAdapter.FindPathReadsSolverAnswer | src/astart_prolog_adapter.py:40-49 | when the solver exits with 0 and prints a path list and a cost line, followed by any whitespace and with anything on standard error, `find_path` returns that path and cost |
| FindPathCli.PickNode | find_path.py:31-36 | the choice is what `select_node_pair` gives on that street's options; the node chosen is an end of one of that street's pairs; there is no choice exactly when the street has no pair, and then no record has that street's name |
| FindPathCli.RunCli | find_path.py:6-89 | two names must be typed. The run ends with the first name (checked first) or the second when it matches no street, and only then. A solved run's streets and nodes are exactly what `select_street` twice and then `select_node_pair` twice answer, each on the answers the previous prompts left; both nodes lie on their streets, and the solver is asked for exactly those nodes with the tool's hard-coded program. Input ends only when fewer than two lines are typed or one of those four prompts runs out of answers. The IndexError of a chosen street without node pairs needs a name no record has, so it cannot happen when the matcher offers only names of records |
| Workflow.Pick | exemple_streamlit.py:78 | a select box yields an offered entry, the selected one when the position exists |
| Workflow.IndexOf | exemple_streamlit.py:107 | `list.index` gives the first position holding the entry |
| Workflow.PairLabelInjective | exemple_streamlit.py:105 | different node pairs get different labels |
| Workflow.ChoosePair | exemple_streamlit.py:102-116 | looking the selected label up in the label list gives back the selected pair (the sole one when there is one) |
| Workflow.ChooseStreet | exemple_streamlit.py:75-85 | the street settled on is one of the matches: the sole match without a select box, otherwise the selected one |
| Workflow.Step1 | exemple_streamlit.py:45-56 | the page reruns exactly on submission, storing both texts and moving to step 2 with nothing else changed; without submission nothing changes |
| Workflow.Step2 | exemple_streamlit.py:58-91 | a missing entry crashes (KeyError) and a text without matches stops the page, both leaving the session as it was; otherwise both streets are among their matches and step 3 follows, nothing else changed |
| Workflow.Step3 | exemple_streamlit.py:93-122 | the step crashes exactly when an entry is missing or either street has no node pair, having stored at most the start pair; otherwise each pair is one of its street's options and step 4 follows, nothing else changed |
| Workflow.Step4 | exemple_streamlit.py:124-141 | the step crashes (KeyError) exactly when a pair is missing, changing nothing; otherwise each node is an end of its pair and step 5 follows, nothing else changed |
| Workflow.Step5 | exemple_streamlit.py:143-179 | the session is left as it was. A missing entry crashes. Otherwise the path is shown exactly when the adapter finds one that can be drawn, with the adapter's path and cost; the page exits exactly on a solver error or a missing executable, and crashes exactly when there is no path or it cannot be drawn |
| Workflow.RunStep | exemple_streamlit.py:34-43 | the dispatched step either reruns at the next step (from steps 1-4) or ends at the step it started from; a step outside 1..5 runs nothing |
| Workflow.LoadDefaults | exemple_streamlit.py:16-22 | the coordinates and `step = 1` are stored only when absent; nothing else changes |
| Workflow.LoadStreetNodes | exemple_streamlit.py:30-32 | the city file's street records are stored only when absent; nothing else changes |
| Workflow.LoadingIsIdempotent | exemple_streamlit.py:16-32 | loading a loaded session again, even from other files, changes nothing |
| Workflow.Pass | exemple_streamlit.py:14-43 | Reset empties the whole session and reruns the page; otherwise the coordinates and the street records are present afterwards and the step advances by one with a rerun or stays |
| Workflow.FreshSessionStartsAtStepOne | exemple_streamlit.py:16-35 | the first pass on an empty session stores the coordinates, `step = 1` and the street records, and then runs step 1 |
| Workflow.PassKeepsConsistent | exemple_streamlit.py:14-179 | every pass keeps the session consistent: each step finds the entries it reads, and each choice was offered. A pass crashes only on a street without pairs (step 3) or a missing or undrawable path (step 5), and exits only on a solver failure (step 5) |
| Workflow.SoundMatcherCrashesOnlyAtStepFive | exemple_streamlit.py:93-122 | with a matcher that offers only names of records, a consistent session crashes only at step 5 |
| Workflow.VisitStaysConsistent | exemple_streamlit.py:14-43 | from an empty session, any sequence of passes keeps the session consistent |
| Workflow.SelectionsStored | exemple_streamlit.py:75-135 | steps 2, 3 and 4 store the entry at the position the user selected |
| Workflow.FirstEntriesStored | exemple_streamlit.py:75-135 | as the page is written, steps 2, 3 and 4 store the first match, the first node pair and the first node of each pair |
| Workflow.SecondMatchIgnored | exemple_streamlit.py:77-79 | for a text matching two streets with the second selected, the page as written stores the first street and the corrected pass the second |
| WebSession.Without | exemple_streamlit.py:27 | deleting a key removes that entry and no other |
| WebSession.PresentKeys | exemple_streamlit.py:26 | the listed keys are exactly the present entries |
| WebSession.NothingPresentIsEmpty | exemple_streamlit.py:26-27 | a session without entries is the empty session |
| WebSession.Session.constructor | exemple_streamlit.py:16-22 | a new visitor's session has no entries |
| WebSession.Session.Delete | exemple_streamlit.py:27 | `del` removes one entry in place |
| WebSession.Session.Clear | exemple_streamlit.py:25-28 | deleting the listed keys one by one leaves the session empty |
| WebSession.Session.Step1Pass | exemple_streamlit.py:45-56 | updates the entries as `Step1` says |
| WebSession.Session.Step2Pass | exemple_streamlit.py:58-91 | updates the entries as `Step2` says |
| WebSession.Session.Step3Pass | exemple_streamlit.py:93-122 | updates the entries as `Step3` says, including the start pair stored before a failure on the end street |
| WebSession.Session.Step4Pass | exemple_streamlit.py:124-141 | updates the entries as `Step4` says |
| WebSession.Session.Step5Pass | exemple_streamlit.py:143-179 | changes nothing and ends as `Step5` says |
| WebSession.Session.RunPass | exemple_streamlit.py:14-43 | one run of `main` leaves the session object in the state `Pass` gives and ends the same way |
| GetMap.NormaliseName | src/get_map.py:25-28 | the stored name has each apostrophe escaped by a backslash, and a name without apostrophes is stored as it is |
| GetMap.NormaliseNameUndone | src/get_map.py:25-28 | the stored name unescapes to the raw name: `'Unknown'` when absent, the text, or a list joined with `', '` |
| GetMap.UnknownWhenUnnamed | src/get_map.py:25 | an edge without a name is stored as `Unknown` |
| GetMap.TranslateKeeps | src/get_map.py:21-30 | a translated edge keeps its numbered ends and its distance, and its stored name unescapes to the raw name (unchanged when apostrophe-free) |
| GetMap.MappedPrefix | src/get_map.py:21-23 | the edge loop gets through exactly the leading edges whose ends are numbered |
| GetMap.CityGraphBuilder.constructor | src/get_map.py:4-9 | the builder starts with empty mappings and no edges |
| GetMap.CityGraphBuilder.BuildNodeMapping | src/get_map.py:11-18 | the i-th listed node gets number i (from 1), numbers lie in 1..n, and exactly the numbers 1..n get their node's coordinates |
| GetMap.NumberNodes | src/get_map.py:12-13 | the loop lists the ids in graph order, and the i-th listed node gets number i+1 |
| GetMap.CoordinatesOf | src/get_map.py:14-17 | exactly the numbers 1..n get coordinates, each those of its node |
| GetMap.NumberedOneToN | src/get_map.py:12-13 | with distinct node ids the numbering is injective into 1..n |
| GetMap.LocationLine | src/get_map.py:35-36 | a location line starts with `location(` and ends with `').` |
| GetMap.LocationLineExample | src/get_map.py:36 | node 3's line is `location(3, 'Intersection 3').` |
| GetMap.StreetLine | src/get_map.py:41-42 | a street line starts with `street(`, the two node numbers and the distance, and ends with `').` |
| GetMap.ExportLines | src/get_map.py:32-42 | the file has one line per node and per edge, plus four |
| GetMap.ExportLayout | src/get_map.py:32-42 | the header comes first, the location lines in node order, then the blank line and the two comments, then the street lines in record order |
| GetMap.CityGraphBuilder.BuildEdges | src/get_map.py:20-30 | one translated record per edge is appended in edge order after the existing ones; an unnumbered end stops the loop (KeyError) with the earlier records kept |
| GetMap.CityGraphBuilder.SaveToFile | src/get_map.py:32-42 | the lines written are the header, one location line per node in dictionary order, a blank line, two comments, and one street line per record |
| ExportReadBack.ReadBack | src/get_map.py:42 | what the street-line parser reads from an exported line: the edge's own two nodes and a valid name; nothing for an empty name; the name itself when it is apostrophe-free |
| ExportReadBack.StreetLineReadBack | src/get_map.py:42 | an exported street line is read back as its name and nodes when the raw name is non-empty and apostrophe-free. An empty name is skipped. A name with an apostrophe is cut at its first apostrophe (keeping the backslash) when `).` follows it, and skipped otherwise |
| ExportReadBack.CleanStreetLineRead | src/get_map.py:42 | a street line with a non-empty, apostrophe-free name and comma-free distance gives back its name and both node numbers |
| ExportReadBack.EscapedNameRead | src/get_map.py:28 | the escaped apostrophe ends the name early for the parser |
| ExportReadBack.LocationLinesSkipped | src/get_map.py:35-36 | location lines are never read as streets |
| ExportReadBack.ExportedStreetNodes | src/get_map.py:34-42 | the street records read from an exported file are those of its street lines alone |
| ExportReadBack.ExportRoundTrip | src/get_map.py:32-42 | with non-empty apostrophe-free names and comma-free distances, reading the exported file gives back every record, in order |

## Left out

- `find_best_match` (`difflib.get_close_matches` over `list(set(...))`) is a function parameter: its similarity scores are floating point and its order depends on hashing. Only its promise is modelled, as `MatcherSound`: at most five names, each the name of some record. Which names it picks and in what order are not.
- The cost line's `float()` conversion and its printing are not modelled: the cost stays text. On a cost line that is not a number the code raises ValueError. The model reports the path with that text instead.
- The distance is carried as the text `save_to_file` prints. The division by 1000 and the `:.2f` formatting are floating point.
- Coordinates are opaque reals, and the loading of the coordinate table with pandas is a parameter. The map drawing on the web page (average centre, Folium) is left out. Only whether it raises is kept: a node without coordinates or an empty path crashes the pass.
- Process and file I/O are not modelled: `subprocess.run`, `open`, `input`, `print`, `sys.exit`, the osmnx download and `save_node_coordinates`. What they produce or consume are parameters or results.
- Exceptions are outcomes of the model: end of input (EOFError), the IndexError of a street without node pairs, the KeyError of an unnumbered edge end, and the crashes of the web page.
- The handler for FileNotFoundError in the web page's step 5 cannot fire: the adapter catches that error itself and exits. The model reports that exit.
- The top-level script `get_map.py` at the repository root duplicates `src/get_map.py` inline and is not part of this model. The usage lines of `src/get_map.py` (51-55) are not part of it either.
- Digits are ASCII. `str.isdigit` also accepts other Unicode digit characters, some of which `int()` rejects. A superscript such as `²` passes `isdigit` and then makes `int()` raise ValueError, so the list parser can crash on such a token. Neither this nor `int()` accepting `_` between digits is modelled.
- Reading a file line by line is modelled by its list of lines. A name or distance holding a line break would split a written line; the round-trip lemmas speak of the lines as written.
- Python dictionaries remember insertion order; Dafny maps do not. `CityGraphBuilder` keeps the key order of `node_id_mapping` in a separate sequence. The web session's key order matters only to the Reset loop, which deletes every key whatever the order.
- GetMap.CityGraphBuilder.constructor: requires distinct node ids, which a networkx graph guarantees. Repeated ids, where the later position would win, are not modelled.
- GetMap.NormaliseName: a name attribute that is neither a string nor a list (`str(name)` of another value) is not modelled.
- The widgets are inputs; text inputs yield their text. Each select box yields a position. As the page is written, a select box is drawn once and the same run then calls `st.rerun()`, so it always reports its first entry. `PassAsWritten` and `FirstEntriesStored` state this. `Pass`, `Replay` and `Session` take the user's positions, which is what the page evidently means to store (see Findings).
- GetMap.Translate: its properties are stated by `TranslateKeeps` rather than on the function, to keep the proofs over the edge loop small.

## Findings

| source | as written | input that shows it | evidently intended | confidence | as-written member | corrected member |
|---|---|---|---|---|---|---|
| exemple_streamlit.py:75-141 | each select box is read in the run that first draws it, and the same run calls `st.rerun()`, which moves to the next step before the user can select anything | a start text matching two streets, with the second street selected (`SecondMatchIgnored`) | the street, node pair and node the user selects are stored | not executed | Workflow.FirstEntriesStored | Workflow.SelectionsStored |
