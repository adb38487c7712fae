# Simulated nutrition report and PDF word wrap, in Dafny

This project models the report engine of a small nutrition-consultation app (`app.py`)
and proves properties of it. Given one consultation, the engine writes a structured
report:

- a four-line summary: module and subtype, main complaint, goals, and notes;
- five bullet sections: assessment, attention points, next steps, missing data and
  follow-up.

The bullets come from two sources:

- two keyword rules: fatigue terms in the complaint, weight-loss terms in the goals;
- at most one module group (clinical, sports or maternal-child), chosen by the exact
  module name. Each group reads its own extra fields.

A section that nothing contributed to gets one canned line. The project also models
the word wrapper of the PDF export, `_wrap_text`.

Files:

- `wrappers.dfy` (`Wrappers`): `Option` stands for Python's `None`, and `OrEmpty` is
  `(x or "")`.
- `pystr.dfy` (`PyStr`): the Python string built-ins the code relies on. These are
  `isspace`, `strip`, `lower`, `in`, `split()`, `" ".join`, `"\n".join` and
  `replace("\r", "")`, with their round trips and fixed points. The program never calls
  `split("\n")`. `SplitLines` models it only so that a rendered section or the summary
  can be read back as its lines.
- `report_spec.dfy` (`ReportSpec`): the report stated declaratively. A bullet is a
  symbolic `Bullet` (the rule that made it, plus a field value for an echo), and `Text`
  gives each bullet its exact wording. The keyword rules and the three groups are
  tables. `SectionItems` is what the rules contribute to a section, in evaluation
  order, or the section's canned line. `Synthesize` is the whole report.
- `report_engine.dfy` (`ReportEngine`): the engine as the program runs it, by
  successive appends into five lists. Each method is proved equal to the declarative
  definition; `GenerateReportSimulated` is proved equal to `Synthesize`.
- `report_properties.dfy` (`ReportProperties`): what the report promises, proved about
  `Synthesize`'s parts.
- `pdf_wrap.dfy` (`PdfWrap`): `_wrap_text` as a loop with its invariant, proved against
  the predicate `Wrapped`. That predicate says:
  - the words are all kept, in order, one space apart;
  - only a single word can exceed the width;
  - a line ends only when the next word would not fit;
  - an overlong first word leaves a leading empty line.

## Model

| member | source | states |
|---|---|---|
| ReportEngine.GenerateReportSimulated | app.py:122-252 | the report is exactly `Synthesize` of the same arguments: stripped inputs, the four-line summary, each of the five sections rendered from its rules' bullets or its canned line |
| ReportEngine.Sections | app.py:134-243 | the five lists built by the keyword rules, the selected group and the fallbacks are each `SectionItems` of their section |
| ReportEngine.KeywordRules | app.py:136-144 | the fatigue rule (complaint) then the weight-loss rule (goals) each add one assessment line, one attention point and one next step when they fire |
| ReportEngine.ModuleGroup | app.py:146-228 | the module name is tested against the three group names in order; the matching group's bullets are contributed, and an unknown name contributes none |
| ReportEngine.ClinicalGroup | app.py:146-170 | context line; echo or missing line for comorbidities, labs and meds in that order; a next step for filled labs; plan and follow-up |
| ReportEngine.SportsGroup | app.py:172-196 | context line; echo or missing line for training routine, performance goal and body composition; a next step for a filled training routine; plan and follow-up |
| ReportEngine.MaternalChildGroup | app.py:198-228 | context line; echo or missing line for child age, breastfeeding, growth curve and allergy; a next step for a filled growth curve; plan and follow-up |
| ReportEngine.AddField | app.py:153-167 | a filled field adds its echo (and its next step where it has one); a blank field adds its missing-data line; nothing else changes |
| ReportSpec.SelectModuleByName | app.py:146-198 | a module name selects the clinical, sports or maternal-child group exactly when it equals that group's name, and no group otherwise |
| ReportSpec.GroupFieldsInOrder | app.py:147-225 | each group's field bullets are those of its field table, in the order the code evaluates the fields |
| ReportProperties.AnyTermInIff | app.py:119 | `any(term in t for term in terms)` holds exactly when some term occurs at some position of `t` |
| ReportProperties.ContainsAnyIff | app.py:117-119 | `_contains_any` holds exactly when some term occurs in the lower-cased text, `None` reading as the empty text |
| ReportProperties.ExtremeTirednessFires | app.py:123-136 | the complaint "Cansaço extremo", stripped and lower-cased, fires the fatigue rule whatever the goals |
| ReportProperties.BlankFieldsIff | app.py:147-225 | a field is blank exactly when it belongs to the list and its stripped value is empty, an absent key and `None` included |
| ReportProperties.MissingPerBlankField | app.py:155-225 | the missing-data bullets of a field list are one "not informed" line per blank field, in field order |
| ReportProperties.NotInformedPerBlankField | app.py:155-225 | a field's "not informed" line is among the missing-data bullets exactly when the field is listed and blank |
| ReportProperties.FieldItemsKinds | app.py:153-225 | the field bullets are only echoes, "not informed" lines and field steps |
| ReportProperties.EchoPerFilledField | app.py:153-225 | an echo of value `v` for field `f` is among the attention bullets exactly when `f` is listed and its stripped value is the non-empty `v` |
| ReportProperties.StepPerFilledField | app.py:158-218 | a field's next step is present exactly when the field is listed, has a step (labs, training routine, growth curve) and is filled |
| ReportProperties.OneBulletPerField | app.py:153-225 | every field yields exactly one of an attention echo and a missing-data line |
| ReportProperties.EchoQuotesValue | app.py:154-223 | an echo's wording contains the field value verbatim, right after the field's heading and ": " |
| ReportProperties.SelectsOwnModule | app.py:146-198 | each group's own name selects that group |
| ReportProperties.KnownSection | app.py:134-243 | for a known module name, a section is the rule bullets followed by the group's bullets, or the canned line when both are empty |
| ReportProperties.UnknownSection | app.py:134-243 | for any other module name, a section is the rule bullets, or the canned line when there are none |
| ReportProperties.CrossItemsShape | app.py:136-144 | the rules add nothing to missing data or follow-up; elsewhere exactly the fatigue rule's bullet if it fires, then the weight-loss rule's if it fires, each of the section's own kind |
| ReportProperties.RuleBulletIff | app.py:136-144 | in assessment, attention points and next steps, each rule's bullet appears exactly when that rule fires, whatever the module and the other rule |
| ReportProperties.ModuleItemsKinds | app.py:146-228 | group bullets are never rule bullets |
| ReportProperties.FatigueComesFirst | app.py:136-144 | in assessment, attention points and next steps, the fatigue rule's bullet is the first bullet exactly when the fatigue rule fires |
| ReportProperties.KnownModuleAssessment | app.py:146-231 | for a known module, the assessment is the rules' lines then the group's context line, and never the fallback |
| ReportProperties.KnownModuleNextSteps | app.py:146-237 | for a known module, the next steps are never the fallback, and the last one is the group's plan |
| ReportProperties.KnownModuleFollowUp | app.py:146-243 | for a known module, the follow-up is exactly the group's own line |
| ReportProperties.KnownModuleMissing | app.py:146-240 | for a known module, missing data is one "not informed" line per blank field in field order, or the canned line when every field is filled |
| ReportProperties.UnknownModuleCanned | app.py:239-243 | for an unknown module, follow-up and missing data are the canned lines |
| ReportProperties.UnknownModuleFallsBack | app.py:136-237 | for an unknown module, assessment, attention points and next steps fall back exactly when neither keyword rule fired |
| ReportProperties.FieldEchoed | app.py:153-225 | a field of the selected group is echoed among the attention points exactly when its stripped value is non-empty |
| ReportProperties.FieldMissing | app.py:153-225 | a field of the selected group is reported missing exactly when its stripped value is empty |
| ReportProperties.FieldAddsStep | app.py:158-218 | a field of the selected group adds its next step exactly when it has one and is filled |
| ReportProperties.ClinicalFieldCount | app.py:153-167 | the clinical fields give three echo or missing lines in all, and the missing lines number the blank fields |
| ReportProperties.RenderStartsWithBullet | app.py:245-252 | a non-empty bullet list renders as text starting with "- " |
| ReportProperties.SectionStartsWithBullet | app.py:230-252 | no section is ever empty: every rendered section starts with "- " |
| ReportProperties.RenderContainsText | app.py:245-252 | every bullet's text appears verbatim in its rendered section, whatever characters it holds |
| ReportProperties.FieldValueRendered | app.py:153-248 | a filled field of the selected group appears verbatim in the rendered attention points, whatever characters it holds |
| ReportProperties.RenderedLines | app.py:245-252 | when no bullet text has a newline, the rendered section splits back into one line per bullet, each "- " followed by the bullet's text |
| ReportProperties.SummaryLines | app.py:127-132 | the summary splits into exactly four lines, the last reading "Observações: Não informado" when the stripped notes are empty |
| PyStr.TrimLeftIsSuffix | app.py:123-125 | `lstrip` removes a whitespace-only prefix and stops at a non-space character |
| PyStr.TrimRightIsPrefix | app.py:123-125 | `rstrip` removes a whitespace-only suffix and stops at a non-space character |
| PyStr.StripIsTrimmedSlice | app.py:123-125 | `strip` is a slice of its input that starts and ends with non-space characters, unless empty |
| PyStr.StripEmptyIff | app.py:123-125 | a string strips to "" exactly when it is all whitespace |
| PyStr.StripKeeps | app.py:123-125 | stripping adds no character |
| PyStr.StripIdempotent | app.py:123-125 | stripping twice is stripping once |
| PyStr.LowerChar | app.py:118 | an upper-case ASCII or Latin-1 letter maps 32 code points up to a non-upper-case letter; other characters stay |
| PyStr.LowerFixedPoints | app.py:118 | lower-casing is idempotent and leaves text without upper-case letters unchanged |
| PyStr.ContainsIff | app.py:119 | `term in text` holds exactly when `term` occurs in `text` at some position |
| PyStr.Split | app.py:262 | `split()` yields only non-empty words without whitespace |
| PyStr.SplitEmptyIff | app.py:262 | `split()` gives no words exactly when the text is all whitespace |
| PyStr.SplitAtSpace | app.py:262 | a whitespace character separates the words on its two sides |
| PyStr.SplitJoinSpace | app.py:270-274 | `" ".join` of words splits back into those words |
| PyStr.JoinSplitLines | app.py:247-251 | `"\n".join(s.split("\n")) == s` |
| PyStr.SplitJoinLines | app.py:247-251 | `"\n".join` of newline-free lines splits back into those lines |
| PyStr.Without | app.py:262 | `replace("\r", "")` leaves no carriage return and keeps every other character, as many times as it occurs |
| PyStr.WithoutSingle | app.py:262 | on one character, removal keeps it exactly when it is not the removed character |
| PyStr.WithoutConcat | app.py:262 | removal distributes over concatenation, so the kept characters stay in their original order |
| PyStr.WithoutAbsent | app.py:262 | removing a character that does not occur changes nothing |
| PdfWrap.WrapText | app.py:259-275 | `None` or "" gives `[""]`; whitespace-only text gives `[]`; any other text gives a `Wrapped` layout of its words after removing "\r" |
| PdfWrap.Lay | app.py:263-275 | the greedy loop lays any list of words into lines that satisfy `Wrapped`, and no words into no lines |
| PdfWrap.FitStep | app.py:265-268 | a word that fits joins the current line, one space after the previous word, and the loop invariant is kept |
| PdfWrap.FlushStep | app.py:269-272 | a word that does not fit finishes the current line and opens the next, and the loop invariant is kept |
| PdfWrap.Finish | app.py:273-274 | finishing a non-empty last line yields a `Wrapped` layout of all the words |
| PdfWrap.LinesOfGroups | app.py:270-274 | joined word groups split back into the groups, and their words in order are all the words |
| PdfWrap.WithoutKeepsSpace | app.py:262 | removing carriage returns from whitespace leaves whitespace |
| PdfWrap.GroupsWrapped | app.py:263-275 | finished word groups of all the words, joined, form a `Wrapped` layout |

## Left out

- Storage, deduplication of stored reports, PDF drawing and the Streamlit user
  interface are not modelled. They do I/O or call libraries that are not part of this
  model.
- Case mapping is limited: `PyStr.LowerChar` lower-cases only ASCII and Latin-1
  (U+00C0 to U+00DE). Python's full Unicode case mapping is not modelled. This covers
  every keyword and module name of the engine.
- The dict `extra` is a map from keys to `Option<string>`. Values of other Python types
  are not modelled.
- `ReportEngine.GenerateReportSimulated` returns the report as a datatype with the six
  sections, not as a dict keyed by strings.
- `ReportProperties.RenderedLines` assumes that no bullet text contains a newline. The
  fixed texts contain none, but that is not proved for the long literals.
- `ReportProperties.RenderedLines` also needs echoed field values to be single-line.
  That holds for one-line input fields; with a multi-line value, a rendered section
  contains lines that do not start with "- ".
- `ReportProperties.SummaryLines` assumes module, subtype, complaint, goals and notes
  contain no newline. With a newline in any of them, the summary has more than four
  lines.
- `PdfWrap.WrapText` takes the width as a parameter. `PdfWrap.DefaultMaxChars` records
  the default of 105; a call without a width is not modelled separately.
