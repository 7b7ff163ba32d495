# COMFOCUS ontology ingest — a verified model of its core

The ingest reads spreadsheet rows describing harmonised measures,
questionnaire components, qualities, classifications (with their
instances), questions of three kinds and matrix statements. It turns them
into entities with fresh numeric ids, and writes every entity as OWL 2
axioms, in the OWL 2 XML Serialization, under one shared `Ontology` root.
This project models the three pieces that do the work:

- **Identifier authority and entity records** (`Import/parser/Entities.py`).
  - `entities.dfy`: the `Ontology` class with its counter (starting at 701) and its lazily built root.
  - Entity IRIs (base plus the id zero-padded to 20 digits) and instance IRIs.
  - The fixed parent IRI of each kind.
  - The `Classification` class, whose `AddIndividual` appends.
  - `QuestionType.get_id`.
- **Row normaliser and deduplicator** (`Import/parser/CsvParser.py`).
  - `csv_parser.dfy`: `get_id`, the composite key.
  - `dedup.dfy`: the first-wins read loop the six plain parsers share.
  - `parsers.dfy`: the measure, component, quality and three question parsers.
  - `classifications.dfy`: the classification parser, which keeps appending instances to committed objects.
  - `statements.dfy`: the matrix statement parser, with its per-question numbers.
- **Document assembler** (`Import/parser/XmlWriter.py`).
  - `owl.dfy`: the OWL 2 axioms written, their XML rendering, and a parser that reads them back.
  - `builders.dfy`: the static element builders.
  - `document.dfy`: what each writer appends, as a function of the entity dict.
  - `writers.dfy`: the six writer classes, whose loops append to the shared root.

Supporting modules:
- `errors.dfy`: Option and Result.
- `text.dfy`: `strip`, `lower`, `'_'.join`, decimal and zero-padded numbers.
- `xml.dfy`: elements and the mutable root node.

The parsers' `read` methods change the shared counter in place. Each is proved against a function of its rows:
- `DedupRun` for the plain parsers;
- `ClassificationRun` for classifications;
- `StatementRun` for statements.

The properties the source promises are then proved about those functions.

The writers append to the root node in place. Each `Write` is proved to append exactly the rendering of the axioms `Document` computes. The lemmas about `Document` give:
- the per-entity counts and order;
- the skipping of `added` entities;
- the stop at a missing cross-reference;
- the statement groups.

Two behaviours of the code are easy to misread:
- **Filtered entities and the counter.** An entity removed by a parser's `filter` does not advance the counter: `update_counter` sits inside `if not self.filter(...)` (`Import/parser/CsvParser.py:40-42`).
- **Statement numbering.** Numbers are kept per raw question name, which is case-sensitive and untrimmed, because that is how the `counters` dict is keyed (`Import/parser/CsvParser.py:254-258`). Only the label uses the stripped, lower-cased name. A row the filter drops has already taken its number.

## Model

| member | source | states |
|---|---|---|
| Entities.Ontology.constructor | Import/parser/Entities.py:34-36 | a new ontology has no root yet and its counter is 701 |
| Entities.Ontology.GetCounter | Import/parser/Entities.py:51-52 | returns the counter and changes nothing |
| Entities.Ontology.UpdateCounter | Import/parser/Entities.py:54-55 | the counter grows by exactly one |
| Entities.Ontology.GetOntology | Import/parser/Entities.py:38-49 | the first call makes a fresh `Ontology` root with the namespace attributes and one `Prefix` per prefix entry; later calls return the same root with its children unchanged |
| Entities.AddPrefixes | Import/parser/Entities.py:43-47 | the loop appends exactly the `Prefix` elements of the prefix keys, in order |
| Entities.PrefixElementsNamed | Import/parser/Entities.py:43-47 | the i-th `Prefix` names the i-th key and its IRI, except that `base` gets the empty name |
| Entities.EntityIriDecodes | Import/parser/Entities.py:62-67 | an entity IRI is the base followed by digits that read back as the id; 20 of them for ids below 10^20 |
| Entities.EntityIriInjective | Import/parser/Entities.py:62-67 | distinct ids give distinct entity IRIs |
| Entities.InstanceIriInjective | Import/parser/Entities.py:75-79 | distinct ids give distinct instance IRIs |
| Entities.InstanceIriIsNotEntityIri | Import/parser/Entities.py:62-79 | no instance IRI equals any entity IRI |
| Entities.FixedParentIri | Import/parser/Entities.py:94-173 | the padded parent IRIs of qualities, components and the three question kinds are the entity IRIs of 610, 549, 388, 358 and 533 |
| Entities.ParentIrisDistinct | Import/parser/Entities.py:85-186 | the eight kinds have eight different parent IRIs, and only the matrix statement's is empty |
| Entities.OtherParentIris | Import/parser/Entities.py:88-118 | the measure and classification parents are not on the entity base |
| Entities.EntityIriIsNotParentIri | Import/parser/Entities.py:36-186 | no id the counter hands out (701 or more) gives an entity the IRI of any kind's parent |
| Entities.Classification.constructor | Import/parser/Entities.py:115-120 | a new classification has the given id, label and definition, no individuals, and is not flagged `added` |
| Entities.Classification.AddIndividual | Import/parser/Entities.py:122-123 | one individual is appended at the end and the earlier ones are kept |
| Entities.GetQuestionTypeExact | Import/parser/Entities.py:133-144 | `get_id` gives a member exactly for that member's own string, in both directions |
| Entities.GetQuestionTypeIsCaseSensitive | Import/parser/Entities.py:133-144 | an illustration of `GetQuestionTypeExact`: a different case or surrounding spaces give no member |
| Text.StripIdempotent | Import/parser/CsvParser.py:17 | stripping twice is stripping once |
| Text.StripIsTrimmedSlice | Import/parser/CsvParser.py:17 | `strip` removes exactly the leading and trailing whitespace and keeps the middle |
| Text.LowerStripCommute | Import/parser/CsvParser.py:93 | `strip().lower()` equals `lower().strip()` |
| Text.SplitJoin | Import/parser/CsvParser.py:18 | splitting a `_`-join at `_` gives the parts back when no part contains `_` |
| Text.ZeroPaddedRoundTrip | Import/parser/Entities.py:67 | `{:020d}` reads back as the number, and is 20 characters long below 10^20 |
| Text.DecimalRoundTrip | Import/parser/Entities.py:79 | `str(id)` reads back as the id |
| CsvParser.GetId | Import/parser/CsvParser.py:14-18 | the loop computes the `_`-join of the stripped id values, or the error for the first missing id column |
| CsvParser.KeyOfDefined | Import/parser/CsvParser.py:14-18 | a key exists exactly when every id column is present; otherwise the error names the first missing one |
| CsvParser.KeyOfSingleColumn | Import/parser/CsvParser.py:14-18 | with one id column the key is its stripped value |
| CsvParser.KeyOfIgnoresPadding | Import/parser/CsvParser.py:14-18 | for any id columns, including the three-column keys of the question and statement parsers, whitespace around any cell of a row does not change its key or its missing-column error |
| CsvParser.KeyOfSplits | Import/parser/CsvParser.py:14-18 | when no stripped value contains `_`, the key splits back into the stripped values |
| Deduplication.Table.Add | Import/parser/CsvParser.py:41 | storing under a new key puts the key last and keeps the dict well formed |
| Deduplication.ReadDeduplicated | Import/parser/CsvParser.py:33-46 | the loop returns what `DedupRun` says and leaves the counter where it stops |
| Deduplication.DedupConsistent | Import/parser/CsvParser.py:37-42 | one entity per key; ids start, start+1, … in insertion order; the counter one past the last; no committed entity filtered |
| Deduplication.DedupKeyAdmitted | Import/parser/CsvParser.py:37-42 | a key is in the dict exactly when some row with that key builds an entity the filter keeps |
| Deduplication.DedupFirstWins | Import/parser/CsvParser.py:37-42 | each entity is built from the first row with its key whose entity the filter keeps |
| Deduplication.DedupPrefixStable | Import/parser/CsvParser.py:37-42 | later rows never change what earlier rows committed, nor its order |
| Deduplication.DedupRunFailureSticks | Import/parser/CsvParser.py:37-42 | the first error ends the read; later rows do nothing |
| Parsers.ReadMeasures | Import/parser/CsvParser.py:32-46 | `HarmonisedMeasureParser.read` is the shared loop with the measure builder and filter |
| Parsers.MeasuresRead | Import/parser/CsvParser.py:37-49 | measures numbered consecutively, none labelled `InformedConsent`, each carrying the stripped label of its key's first kept row, unflagged |
| Parsers.ReadComponents | Import/parser/CsvParser.py:55-76 | `HarmonisedQuestionareComponentParser.read` is the shared loop with the component builder and filter |
| Parsers.ComponentsRead | Import/parser/CsvParser.py:61-79 | components numbered consecutively, none of measure `InformedConsent`, each carrying the stripped cells of its key's first kept row |
| Parsers.ReadQualities | Import/parser/CsvParser.py:85-102 | `QualityParser.read` is the shared loop with the quality builder and filter |
| Parsers.QualitiesRead | Import/parser/CsvParser.py:91-105 | qualities numbered consecutively, none of measure `InformedConsent`, each with the stripped, lower-cased label of its key's first kept row |
| Parsers.ReadQuestions | Import/parser/CsvParser.py:152-235 | the three question parsers' `read` is the shared loop with the variant's builder and filter |
| Parsers.QuestionsRead | Import/parser/CsvParser.py:158-239 | questions numbered consecutively; each comes from its key's first row whose `Question` cell is exactly the parser's type and whose component is not `209`; the label is stripped and lower-cased, the linked classification raw or `open` |
| ClassificationParser.ClassificationNeverExcluded | Import/parser/CsvParser.py:145-146 | the classification filter never excludes |
| ClassificationParser.ReadClassifications | Import/parser/CsvParser.py:111-143 | the loop ends where `ClassificationRun` ends, with its error or with distinct new objects holding its values |
| ClassificationParser.ReadClassificationRow | Import/parser/CsvParser.py:117-139 | one row of the loop does exactly what one step of the run does, to the counter and to the objects |
| ClassificationParser.StartClassification | Import/parser/CsvParser.py:117-131 | a new key's row commits a new classification and adds its first instance, or stops at the first missing cell |
| ClassificationParser.CommitClassification | Import/parser/CsvParser.py:118-125 | the new object has the current id and goes last under its key; the counter advances once |
| ClassificationParser.AddInstanceTo | Import/parser/CsvParser.py:127-139 | the classification under the key gains one instance with the current id, and the counter advances once |
| ClassificationParser.AppendInstance | Import/parser/CsvParser.py:135-138 | `add_individual` on the object under a key changes that classification only |
| ClassificationParser.StepOnNewKey | Import/parser/CsvParser.py:117-131 | a new key's row commits its classification with the current id, then adds an instance with the next id |
| ClassificationParser.StepOnKnownKey | Import/parser/CsvParser.py:133-139 | a known key's row appends one instance, with the current id and the classification's IRI as its parent, or stops if it lacks the cell |
| ClassificationParser.StepOnMissingColumn | Import/parser/CsvParser.py:117-121 | a new key's row without a classification cell stops the read with nothing committed |
| ClassificationParser.ClassificationRunContents | Import/parser/CsvParser.py:116-139 | every row becomes one instance of its key's classification, in row order, with that classification's IRI as parent; each classification comes from its key's first row; the counter advances by the number of keys plus rows; the ids and key order are as `ClassificationRunIds` states |
| ClassificationParser.ClassificationRunIds | Import/parser/CsvParser.py:116-139 | all classification and instance ids are distinct and lie between the start value and the final counter; a classification's first instance has the id right after its own, and its later instances have increasing ids; the keys are listed in the order their first rows come |
| StatementParser.StatementLabelInjective | Import/parser/CsvParser.py:262 | one question name with two numbers gives two labels |
| StatementParser.NextNumber | Import/parser/CsvParser.py:253-258 | the next number is one more than the question's last, or 1 for a new question |
| StatementParser.ReadStatements | Import/parser/CsvParser.py:245-273 | the loop ends where `StatementRun` ends, with its error or dict, and leaves the counter there |
| StatementParser.ReadStatementRow | Import/parser/CsvParser.py:252-269 | one row of the loop is one step of the run |
| StatementParser.NumberRow | Import/parser/CsvParser.py:253-269 | a new row numbers its question, then commits its statement with the current id unless its component is `209` |
| StatementParser.StepOnNewRow | Import/parser/CsvParser.py:252-269 | a new row with every cell takes its question's next number whether or not it is filtered |
| StatementParser.StepOnMissingCell | Import/parser/CsvParser.py:254-265 | a new row without a cell stops the read; its question has already taken its number |
| StatementParser.StatementRunUnnumbered | Import/parser/CsvParser.py:251-269 | labels aside, the statement read is the shared first-wins read: same stop, counter, keys and statements |
| StatementParser.StatementRunNumbered | Import/parser/CsvParser.py:253-262 | every label is the normalised question name with a number that question reached, and no two statements of one question share one |
| StatementParser.CountersCount | Import/parser/CsvParser.py:253-258 | a question's number is the count of rows so far that had a new key and that question name, whether filtered or not; a question no such row had has no number |
| StatementParser.StatementNumbersFromRows | Import/parser/CsvParser.py:252-269 | every statement was committed by a row with its key, and its label carries that row's number: the count of rows up to and including it that took a number for the question |
| StatementParser.NumbersTakenGrow | Import/parser/CsvParser.py:253-258 | a later row that takes a number for a question takes a larger number than any earlier row |
| StatementParser.StatementsRead | Import/parser/CsvParser.py:245-276 | statements numbered consecutively, none of component `209`, each from its key's first kept row with its raw question, stripped item and component, and labelled with the number the committing row took for its question |
| StatementParser.FilteredRowTakesNumber | Import/parser/CsvParser.py:253-269 | three new rows of one question with the middle one filtered: the kept ones get numbers 1 and 3 and consecutive ids |
| Owl.ParseRender | Import/parser/XmlWriter.py:10-88 | every element a builder writes reads back as the axiom it renders |
| Owl.RenderInjective | Import/parser/XmlWriter.py:10-88 | two different axioms never render as the same element |
| Builders.AddDeclaration | Import/parser/XmlWriter.py:10-17 | appends one `Declaration` of a class or a named individual and keeps the earlier children |
| Builders.AddSubclass | Import/parser/XmlWriter.py:19-24 | appends `SubClassOf(child, parent)`, the child class first |
| Builders.AddDisjointClasses | Import/parser/XmlWriter.py:26-31 | appends one `DisjointClasses` with one `Class` per IRI, in list order |
| Builders.AddSubclassSomeValues | Import/parser/XmlWriter.py:33-41 | appends `SubClassOf(child, R(property, parent))`: R is existential when `some` holds, universal otherwise |
| Builders.AddSubclassExactCardinality | Import/parser/XmlWriter.py:43-52 | appends `SubClassOf(child, ObjectExactCardinality(property, parent))` carrying the given attributes |
| Builders.AddLiteralProperty | Import/parser/XmlWriter.py:54-68 | appends an annotation of the IRI whose literal always carries `property_type` as attributes |
| Builders.AddObjectProperty | Import/parser/XmlWriter.py:70-81 | appends an annotation whose subject IRI comes before its value IRI |
| Builders.AddInstance | Import/parser/XmlWriter.py:83-88 | appends `ClassAssertion(class, individual)`, the class first |
| Document.EmitSkipsAdded | Import/parser/XmlWriter.py:97-100 | a writer given only entities flagged `added` appends nothing |
| Document.EmitFailure | Import/parser/XmlWriter.py:222-356 | for every writer loop and each of its `linked_entities` lookups (lines 224, 234, 284, 292, 301, 356): a writer stops exactly when a non-skipped entity's lookup fails, with that first error, keeping everything appended before the lookup |
| Document.EmitFailureSticks | Import/parser/XmlWriter.py:222-356 | in every writer loop, after a failed lookup (lines 224, 234, 284, 292, 301, 356), later entities add nothing |
| Document.EmitLength | Import/parser/XmlWriter.py:97-132 | when nothing fails, the output has the fixed count of each non-skipped entity and nothing for skipped ones |
| Document.MeasuresNeverFail | Import/parser/XmlWriter.py:95-135 | the measure writer looks nothing up, so it never stops |
| Document.QualitiesNeverFail | Import/parser/XmlWriter.py:138-171 | the quality writer never stops |
| Document.ClassificationsNeverFail | Import/parser/XmlWriter.py:369-421 | the classification writer never stops |
| Document.MeasureCount | Import/parser/XmlWriter.py:102-132 | six axioms per measure not skipped |
| Document.QualityCount | Import/parser/XmlWriter.py:145-168 | five axioms per quality not skipped |
| Document.ComponentCount | Import/parser/XmlWriter.py:182-235 | nine axioms when the measure and quality resolve; seven or eight when the measure or the quality lookup fails |
| Document.QuestionCount | Import/parser/XmlWriter.py:249-302 | nine axioms, the last two exact-cardinality-1 restrictions, when the component and classification resolve; six or seven otherwise |
| Document.StatementCount | Import/parser/XmlWriter.py:325-357 | six axioms when the question resolves, five when it does not |
| Document.ClassificationCount | Import/parser/XmlWriter.py:377-418 | six axioms per classification plus three per individual |
| Document.IndividualsAxiomsAt | Import/parser/XmlWriter.py:410-418 | the k-th individual's three axioms follow the first k individuals' |
| Document.GroupedFaithful | Import/parser/XmlWriter.py:311-323 | `question_statements` holds each asked question once, in first-seen order, with its statements' IRIs in dict order |
| Document.StatementIrisAsked | Import/parser/XmlWriter.py:311-323 | a question has a group exactly when some statement not skipped asks it |
| Writers.WriteHeader | Import/parser/XmlWriter.py:102-121 | appends the declaration, English label, creator and date of an entity, in that order |
| Writers.WriteMeasure | Import/parser/XmlWriter.py:102-132 | appends exactly the measure's axioms |
| Writers.WriteQuality | Import/parser/XmlWriter.py:145-168 | appends exactly the quality's axioms |
| Writers.WriteComponent | Import/parser/XmlWriter.py:182-235 | appends the component's axioms up to the first failed lookup and reports it |
| Writers.WriteQuestion | Import/parser/XmlWriter.py:249-302 | appends the question's axioms up to the first failed lookup and reports it |
| Writers.WriteStatement | Import/parser/XmlWriter.py:325-357 | appends the statement's axioms, parented to its question, or stops before that lookup |
| Writers.WriteClassification | Import/parser/XmlWriter.py:377-418 | appends the classification's axioms and then three per individual, in order |
| Writers.WriteGroups | Import/parser/XmlWriter.py:361-365 | appends one `DisjointClasses` per group, in group order |
| Writers.MeasureWriter.Write | Import/parser/XmlWriter.py:95-135 | appends to the root exactly the rendering of the measures' axioms, skipping `added` ones |
| Writers.QualityWriter.Write | Import/parser/XmlWriter.py:138-171 | appends exactly the rendering of the qualities' axioms |
| Writers.ComponentWriter.Write | Import/parser/XmlWriter.py:174-238 | appends the components' axioms and returns the first missing measure or quality, keeping what it appended |
| Writers.QuestionWriter.Write | Import/parser/XmlWriter.py:241-305 | appends the questions' axioms and returns the first missing component or classification |
| Writers.StatementWriter.Write | Import/parser/XmlWriter.py:308-366 | appends the statements' axioms and then one `DisjointClasses` per question, or stops at the first missing question |
| Writers.ClassificationWriter.Write | Import/parser/XmlWriter.py:369-421 | appends the rendering of each classification with its individuals |

## Left out

- File and CSV reading, and `Ontology.write`: the rows are a given sequence of column-to-cell maps, and the output is the root's child sequence.
- `datetime.now()`: each read takes the timestamp as a `date` parameter, shared by the entities it builds.
- `ET.indent`: it only changes whitespace.
- Attribute order inside an element: attributes are a map.
- `Import/parser/Pipeline.py`: call order and file paths only. `linked_entities` is passed as separate typed collections.
- `strip` and `lower` cover only ASCII. `strip` removes the ASCII characters `str.isspace` accepts, including the four separators `\x1c`-`\x1f`, but not non-ASCII whitespace such as `\x85` or `\xa0`. `lower` maps only `A`-`Z`.
- The `tree` wrapper of the root is not modelled. `GetOntology` returns the root only.
- Builders.AddLiteralProperty: the `is None` branch of the source cannot be taken, because `dict.items()` is never `None`, so it is not modelled.
- The classification filter `label in []` never holds, so its excluded branch is not modelled.
- `QuestionType`'s enum values are one-element tuples in the source. Only the strings `get_id` compares against matter, and the model uses plain variants.
- Builders append each element whole, not built child by child after insertion. The resulting children are the same.
- Writers.ClassificationWriter.Write: its contract is stated on a snapshot of the classifications' values. The writer does not mutate the objects.
- Statements of different raw question spellings can get equal labels (`Q` and ` q` both give `q_1`). Their labels are only proved distinct within one raw question name, which is as far as the source promises.
