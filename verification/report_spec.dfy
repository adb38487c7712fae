/**
 * The simulated report of a consultation, stated declaratively.
 *
 * A bullet is modelled by its identity (`Bullet`): the rule that produced it and, for an
 * echo, the field value it repeats; `Text` gives each bullet its exact wording, and
 * rendering prefixes each text with "- " and joins them with newlines.  The keyword rules
 * and the three module groups are tables; each of the five bullet sections is what those
 * rules contribute, in evaluation order, or one canned line when none contributes.
 * `ReportEngine.GenerateReportSimulated` builds the same report step by step and is
 * proved equal to `Synthesize`.
 */
module ReportSpec {
  import opened Wrappers
  import opened PyStr

  /** The module-specific extra fields, by key; a key may be absent or hold `None`. */
  type Extra = map<string, Option<string>>

  /** The arguments of one call of the report engine. */
  datatype Request = Request(
    moduleName: string,
    subtype: string,
    complaint: Option<string>,
    goals: Option<string>,
    notes: Option<string>,
    extra: Extra)

  /** The six text sections of a report. */
  datatype Report = Report(
    summary: string,
    assessment: string,
    attentionPoints: string,
    nextSteps: string,
    missingData: string,
    followUp: string)

  /** The five bullet sections. */
  datatype Section = Assessment | Attention | NextSteps | Missing | FollowUp

  /** The two cross-cutting keyword rules. */
  datatype Rule = FatigueRule | WeightLossRule

  /** The three module groups. */
  datatype Module = Clinical | Sports | MaternalChild

  /** The extra fields the module groups read. */
  datatype FieldId =
    | Comorbidities | Labs | Meds
    | TrainingRoutine | PerformanceGoal | BodyComp
    | ChildAge | Breastfeeding | GrowthCurve | Allergy

  /** One bullet of a section, by the rule that produced it. */
  datatype Bullet =
    | RuleAssessment(rule: Rule)          // a keyword rule's assessment line
    | RuleAttention(rule: Rule)           // a keyword rule's attention point
    | RuleStep(rule: Rule)                // a keyword rule's next step
    | Context(m: Module)                  // a group's unconditional assessment line
    | Echo(field: FieldId, value: string) // a filled field, repeated with advice
    | NotInformed(field: FieldId)         // a blank field
    | FieldStep(field: FieldId)           // the next step some filled fields add
    | Plan(m: Module)                     // a group's unconditional next step
    | Reassess(m: Module)                 // a group's unconditional follow-up
    | Fallback(section: Section)          // the canned line of an empty section

  // ---------------------------------------------------------------------------
  // The rule tables
  // ---------------------------------------------------------------------------

  /** The keywords of a cross-cutting rule, looked for in lower-cased text. */
  function Terms(r: Rule): seq<string> {
    match r
    case FatigueRule => ["cansaço", "fadiga", "sonol", "insônia"]
    case WeightLossRule => ["emagrec", "perder peso", "redução de peso"]
  }

  /** The module name that selects a group. */
  function ModuleName(m: Module): string {
    match m
    case Clinical => "Nutrição clínica"
    case Sports => "Nutrição esportiva"
    case MaternalChild => "Materno infantil"
  }

  /** A group's fields, in the order the group evaluates them. */
  function Fields(m: Module): seq<FieldId> {
    match m
    case Clinical => [Comorbidities, Labs, Meds]
    case Sports => [TrainingRoutine, PerformanceGoal, BodyComp]
    case MaternalChild => [ChildAge, Breastfeeding, GrowthCurve, Allergy]
  }

  /** The key under which a field is looked up in the extra mapping. */
  function Key(f: FieldId): string {
    match f
    case Comorbidities => "comorbidities"
    case Labs => "labs"
    case Meds => "meds"
    case TrainingRoutine => "training_routine"
    case PerformanceGoal => "performance_goal"
    case BodyComp => "body_comp"
    case ChildAge => "child_age"
    case Breastfeeding => "breastfeeding"
    case GrowthCurve => "growth_curve"
    case Allergy => "allergy"
  }

  /** The fields whose filled value also adds a next step. */
  predicate HasStep(f: FieldId) {
    f == Labs || f == TrainingRoutine || f == GrowthCurve
  }

  // ---------------------------------------------------------------------------
  // Keyword matching
  // ---------------------------------------------------------------------------

  /** Some term of `terms` occurs in `t`, trying the terms in order. */
  function AnyTermIn(t: string, terms: seq<string>): bool {
    if |terms| == 0 then false
    else Contains(t, terms[0]) || AnyTermIn(t, terms[1..])
  }

  /** `_contains_any`: some term occurs in the lower-cased text, `None` reading as `""`. */
  function ContainsAny(text: Option<string>, terms: seq<string>): bool {
    AnyTermIn(Lower(OrEmpty(text)), terms)
  }

  /** Whether a rule fires: fatigue terms in the complaint, weight-loss terms in the goals. */
  predicate Fires(r: Rule, complaint: string, goals: string) {
    match r
    case FatigueRule => ContainsAny(Some(complaint), Terms(FatigueRule))
    case WeightLossRule => ContainsAny(Some(goals), Terms(WeightLossRule))
  }

  // ---------------------------------------------------------------------------
  // The request, as the engine reads it
  // ---------------------------------------------------------------------------

  function Complaint(req: Request): string { Strip(OrEmpty(req.complaint)) }
  function Goals(req: Request): string { Strip(OrEmpty(req.goals)) }
  function Notes(req: Request): string { Strip(OrEmpty(req.notes)) }

  /** A field as a group reads it: absent keys and `None` read as blank, values are stripped. */
  function FieldValue(extra: Extra, f: FieldId): string {
    Strip(if Key(f) in extra then OrEmpty(extra[Key(f)]) else "")
  }

  // ---------------------------------------------------------------------------
  // What each rule contributes to each section
  // ---------------------------------------------------------------------------

  /** The bullets a fired keyword rule adds to a section. */
  function RuleItems(r: Rule, s: Section): seq<Bullet> {
    match s
    case Assessment => [RuleAssessment(r)]
    case Attention => [RuleAttention(r)]
    case NextSteps => [RuleStep(r)]
    case _ => []
  }

  /** The cross-cutting rules' bullets: fatigue first, then weight loss. */
  function CrossItems(complaint: string, goals: string, s: Section): seq<Bullet> {
    (if Fires(FatigueRule, complaint, goals) then RuleItems(FatigueRule, s) else [])
    + (if Fires(WeightLossRule, complaint, goals) then RuleItems(WeightLossRule, s) else [])
  }

  /** One field's bullets, given its value: an echo (and maybe a step) when filled, a
      missing-data line when blank. */
  function FieldItem(f: FieldId, v: string, s: Section): seq<Bullet> {
    match s
    case Attention => if |v| > 0 then [Echo(f, v)] else []
    case NextSteps => if |v| > 0 && HasStep(f) then [FieldStep(f)] else []
    case Missing => if |v| == 0 then [NotInformed(f)] else []
    case _ => []
  }

  /** The fields' bullets, in field order (each field appends its own after those before it). */
  function FieldItems(fs: seq<FieldId>, extra: Extra, s: Section): seq<Bullet> {
    if |fs| == 0 then []
    else
      var f := fs[|fs| - 1];
      FieldItems(fs[..|fs| - 1], extra, s) + FieldItem(f, FieldValue(extra, f), s)
  }

  /** The bullets a group's fields add to a section, field after field in the group's order. */
  function GroupFieldItems(m: Module, extra: Extra, s: Section): seq<Bullet> {
    match m
    case Clinical =>
      [] + FieldItem(Comorbidities, FieldValue(extra, Comorbidities), s)
      + FieldItem(Labs, FieldValue(extra, Labs), s)
      + FieldItem(Meds, FieldValue(extra, Meds), s)
    case Sports =>
      [] + FieldItem(TrainingRoutine, FieldValue(extra, TrainingRoutine), s)
      + FieldItem(PerformanceGoal, FieldValue(extra, PerformanceGoal), s)
      + FieldItem(BodyComp, FieldValue(extra, BodyComp), s)
    case MaternalChild =>
      [] + FieldItem(ChildAge, FieldValue(extra, ChildAge), s)
      + FieldItem(Breastfeeding, FieldValue(extra, Breastfeeding), s)
      + FieldItem(GrowthCurve, FieldValue(extra, GrowthCurve), s)
      + FieldItem(Allergy, FieldValue(extra, Allergy), s)
  }

  /** A group's bullets: its context line, its fields' bullets, its plan and its follow-up. */
  function GroupItems(m: Module, extra: Extra, s: Section): seq<Bullet> {
    match s
    case Assessment => [Context(m)]
    case Attention => GroupFieldItems(m, extra, Attention)
    case NextSteps => GroupFieldItems(m, extra, NextSteps) + [Plan(m)]
    case Missing => GroupFieldItems(m, extra, Missing)
    case FollowUp => [Reassess(m)]
  }

  /** The first module of `ms` whose name equals `name`. */
  function FindModule(ms: seq<Module>, name: string): Option<Module> {
    if |ms| == 0 then None
    else if ModuleName(ms[0]) == name then Some(ms[0])
    else FindModule(ms[1..], name)
  }

  /** The group selected by exact equality on the module name, tested in the engine's order. */
  function SelectModule(name: string): Option<Module> {
    FindModule([Clinical, Sports, MaternalChild], name)
  }

  /** The bullets the group a module name selects adds to a section (none for an unknown name). */
  function ModuleItems(moduleName: string, extra: Extra, s: Section): seq<Bullet> {
    match SelectModule(moduleName)
    case Some(m) => GroupItems(m, extra, s)
    case None => []
  }

  /** Everything the rules contribute to a section: the cross-cutting rules, then the group. */
  function Contributions(complaint: string, goals: string, moduleName: string, extra: Extra, s: Section): seq<Bullet> {
    CrossItems(complaint, goals, s) + ModuleItems(moduleName, extra, s)
  }

  /** A section's bullets: the contributions, or the canned line when there are none. */
  function SectionItems(complaint: string, goals: string, moduleName: string, extra: Extra, s: Section): seq<Bullet> {
    var items := Contributions(complaint, goals, moduleName, extra, s);
    if |items| == 0 then [Fallback(s)] else items
  }

  // ---------------------------------------------------------------------------
  // Wording and rendering
  // ---------------------------------------------------------------------------

  function RuleAssessmentText(r: Rule): string {
    match r
    case FatigueRule => "A queixa sugere possível relação com sono, hidratação e regularidade alimentar."
    case WeightLossRule => "O objetivo indica necessidade de estratégia gradual para favorecer adesão."
  }

  function RuleAttentionText(r: Rule): string {
    match r
    case FatigueRule => "Investigar padrão de sono, ingestão hídrica e regularidade das refeições."
    case WeightLossRule => "Risco de metas agressivas reduzirem adesão e favorecerem compensações alimentares."
  }

  function RuleStepText(r: Rule): string {
    match r
    case FatigueRule => "Registrar sono e hidratação por 7 dias e revisar distribuição das refeições."
    case WeightLossRule => "Definir metas graduais e indicadores de adesão (frequência alimentar e proteína/dia)."
  }

  function ContextText(m: Module): string {
    match m
    case Clinical =>
      "No contexto clínico, recomenda-se integrar histórico, sintomas e exames para orientar conduta inicial."
    case Sports =>
      "No contexto esportivo, alinhar ingestão, timing e recuperação à rotina de treino e objetivo."
    case MaternalChild =>
      "No contexto materno-infantil, considerar idade, rotina, crescimento e tolerâncias com foco em segurança."
  }

  function PlanText(m: Module): string {
    match m
    case Clinical => "Definir plano inicial com metas objetivas e acompanhamento."
    case Sports => "Definir indicadores semanais: treinos, sono, fome, recuperação e desempenho."
    case MaternalChild => "Orientar plano inicial considerando rotina familiar e segurança na variedade alimentar."
  }

  function ReassessText(m: Module): string {
    match m
    case Clinical => "Reavaliar em 7 a 14 dias e ajustar conduta conforme resposta e adesão."
    case Sports => "Reavaliar em 7 dias e ajustar timing e distribuição conforme resposta."
    case MaternalChild => "Reavaliar aceitação e evolução em 14 a 30 dias, conforme caso."
  }

  /** The text before an echoed value. */
  function Heading(f: FieldId): string {
    match f
    case Comorbidities => "Comorbidades"
    case Labs => "Exames"
    case Meds => "Medicamentos/suplementos"
    case TrainingRoutine => "Treino"
    case PerformanceGoal => "Meta"
    case BodyComp => "Composição corporal"
    case ChildAge => "Idade da criança"
    case Breastfeeding => "Aleitamento"
    case GrowthCurve => "Crescimento/curva"
    case Allergy => "Alergias/intolerâncias"
  }

  /** The advice after an echoed value. */
  function Advice(f: FieldId): string {
    match f
    case Comorbidities => "Ajustar conduta conforme condição clínica."
    case Labs => "Verificar alterações e tendência."
    case Meds => "Verificar interações e impactos."
    case TrainingRoutine => "Ajustar timing, hidratação e recuperação."
    case PerformanceGoal => "Alinhar estratégia à periodização."
    case BodyComp => "Usar para metas realistas e monitoramento."
    case ChildAge => "Ajustar orientação conforme fase alimentar."
    case Breastfeeding => "Considerar manejo conforme rotina familiar."
    case GrowthCurve => "Verificar tendência."
    case Allergy => "Garantir segurança alimentar."
  }

  function NotInformedText(f: FieldId): string {
    match f
    case Comorbidities => "Comorbidades/diagnósticos não informados."
    case Labs => "Exames laboratoriais recentes não informados, quando aplicável."
    case Meds => "Medicamentos e suplementos não informados."
    case TrainingRoutine => "Rotina de treino não informada."
    case PerformanceGoal => "Meta esportiva específica não informada."
    case BodyComp => "Composição corporal não informada, quando aplicável."
    case ChildAge => "Idade da criança não informada."
    case Breastfeeding => "Aleitamento não informado, quando aplicável."
    case GrowthCurve => "Peso/estatura e datas não informados."
    case Allergy => "Alergias/intolerâncias não informadas, quando aplicável."
  }

  /** The next step of a field that has one; the other fields never produce a `FieldStep`. */
  function FieldStepText(f: FieldId): string {
    match f
    case Labs => "Padronizar registro de exames com datas e acompanhar tendência longitudinal."
    case TrainingRoutine => "Mapear janela pré e pós-treino e registrar sono e recuperação."
    case GrowthCurve => "Registrar medidas com datas e acompanhar tendência longitudinal."
    case _ => ""
  }

  function FallbackText(s: Section): string {
    match s
    case Assessment => "Registro insuficiente para avaliação mais direcionada. Recomenda-se completar dados."
    case Attention => "Não foram identificados pontos críticos com os dados informados. Recomenda-se completar o registro."
    case NextSteps => "Completar anamnese e estabelecer plano inicial com monitoramento em 7 a 14 dias."
    case Missing => "Sem pendências críticas identificadas no registro atual."
    case FollowUp => "Agendar retorno para reavaliação e ajuste do plano conforme evolução e adesão."
  }

  /** The wording of a bullet. */
  function Text(b: Bullet): string {
    match b
    case RuleAssessment(r) => RuleAssessmentText(r)
    case RuleAttention(r) => RuleAttentionText(r)
    case RuleStep(r) => RuleStepText(r)
    case Context(m) => ContextText(m)
    case Echo(f, v) => Heading(f) + ": " + v + ". " + Advice(f)
    case NotInformed(f) => NotInformedText(f)
    case FieldStep(f) => FieldStepText(f)
    case Plan(m) => PlanText(m)
    case Reassess(m) => ReassessText(m)
    case Fallback(s) => FallbackText(s)
  }

  /** Each bullet's text behind a "- " prefix. */
  function Bulleted(items: seq<Bullet>): seq<string> {
    seq(|items|, i requires 0 <= i < |items| => "- " + Text(items[i]))
  }

  /** A section as the report shows it: its bullets, one per line. */
  function Render(items: seq<Bullet>): string {
    JoinLines(Bulleted(items))
  }

  /** The four-line header of the report. */
  function Summary(moduleName: string, subtype: string, complaint: string, goals: string, notes: string): string {
    "Módulo: " + moduleName + " (" + subtype + ")\n"
    + "Queixa principal: " + complaint + "\n"
    + "Objetivos: " + goals + "\n"
    + "Observações: " + (if |notes| > 0 then notes else "Não informado")
  }

  /** The report of a request. */
  function Synthesize(req: Request): Report {
    Report(
      Summary(req.moduleName, req.subtype, Complaint(req), Goals(req), Notes(req)),
      Render(SectionItems(Complaint(req), Goals(req), req.moduleName, req.extra, Assessment)),
      Render(SectionItems(Complaint(req), Goals(req), req.moduleName, req.extra, Attention)),
      Render(SectionItems(Complaint(req), Goals(req), req.moduleName, req.extra, NextSteps)),
      Render(SectionItems(Complaint(req), Goals(req), req.moduleName, req.extra, Missing)),
      Render(SectionItems(Complaint(req), Goals(req), req.moduleName, req.extra, FollowUp)))
  }

  // ---------------------------------------------------------------------------
  // Unfolding the tables
  // ---------------------------------------------------------------------------

  lemma FindModuleCons(m: Module, ms: seq<Module>, name: string)
    ensures FindModule([m] + ms, name) == if ModuleName(m) == name then Some(m) else FindModule(ms, name)
  {
    assert ([m] + ms)[1..] == ms;
  }

  lemma FieldItemsSnoc(fs: seq<FieldId>, f: FieldId, extra: Extra, s: Section)
    ensures FieldItems(fs + [f], extra, s) == FieldItems(fs, extra, s) + FieldItem(f, FieldValue(extra, f), s)
  {
    assert (fs + [f])[..|fs|] == fs;
  }

  /** The clinical group's fields, appended one after the other. */
  lemma ClinicalFields(extra: Extra, s: Section)
    ensures FieldItems(Fields(Clinical), extra, s)
      == [] + FieldItem(Comorbidities, FieldValue(extra, Comorbidities), s)
       + FieldItem(Labs, FieldValue(extra, Labs), s)
       + FieldItem(Meds, FieldValue(extra, Meds), s)
  {
    FieldItemsSnoc([], Comorbidities, extra, s);
    FieldItemsSnoc([Comorbidities], Labs, extra, s);
    FieldItemsSnoc([Comorbidities, Labs], Meds, extra, s);
    assert [Comorbidities] == [] + [Comorbidities];
    assert [Comorbidities, Labs] == [Comorbidities] + [Labs];
    assert Fields(Clinical) == [Comorbidities, Labs] + [Meds];
  }

  /** The sports group's fields, appended one after the other. */
  lemma SportsFields(extra: Extra, s: Section)
    ensures FieldItems(Fields(Sports), extra, s)
      == [] + FieldItem(TrainingRoutine, FieldValue(extra, TrainingRoutine), s)
       + FieldItem(PerformanceGoal, FieldValue(extra, PerformanceGoal), s)
       + FieldItem(BodyComp, FieldValue(extra, BodyComp), s)
  {
    FieldItemsSnoc([], TrainingRoutine, extra, s);
    FieldItemsSnoc([TrainingRoutine], PerformanceGoal, extra, s);
    FieldItemsSnoc([TrainingRoutine, PerformanceGoal], BodyComp, extra, s);
    assert [TrainingRoutine] == [] + [TrainingRoutine];
    assert [TrainingRoutine, PerformanceGoal] == [TrainingRoutine] + [PerformanceGoal];
    assert Fields(Sports) == [TrainingRoutine, PerformanceGoal] + [BodyComp];
  }

  /** The maternal-child group's fields, appended one after the other. */
  lemma MaternalChildFields(extra: Extra, s: Section)
    ensures FieldItems(Fields(MaternalChild), extra, s)
      == [] + FieldItem(ChildAge, FieldValue(extra, ChildAge), s)
       + FieldItem(Breastfeeding, FieldValue(extra, Breastfeeding), s)
       + FieldItem(GrowthCurve, FieldValue(extra, GrowthCurve), s)
       + FieldItem(Allergy, FieldValue(extra, Allergy), s)
  {
    FieldItemsSnoc([], ChildAge, extra, s);
    FieldItemsSnoc([ChildAge], Breastfeeding, extra, s);
    FieldItemsSnoc([ChildAge, Breastfeeding], GrowthCurve, extra, s);
    FieldItemsSnoc([ChildAge, Breastfeeding, GrowthCurve], Allergy, extra, s);
    assert [ChildAge] == [] + [ChildAge];
    assert [ChildAge, Breastfeeding] == [ChildAge] + [Breastfeeding];
    assert [ChildAge, Breastfeeding, GrowthCurve] == [ChildAge, Breastfeeding] + [GrowthCurve];
    assert Fields(MaternalChild) == [ChildAge, Breastfeeding, GrowthCurve] + [Allergy];
  }

  /** A group's field bullets are those of its field table, taken in order. */
  lemma GroupFieldsInOrder(m: Module, extra: Extra, s: Section)
    ensures GroupFieldItems(m, extra, s) == FieldItems(Fields(m), extra, s)
  {
    match m
    case Clinical => ClinicalFields(extra, s);
    case Sports => SportsFields(extra, s);
    case MaternalChild => MaternalChildFields(extra, s);
  }

  /** Which group a module name selects: exactly the group of that name, if any. */
  lemma SelectModuleByName(name: string)
    ensures SelectModule(name) == (if name == ModuleName(Clinical) then Some(Clinical)
      else if name == ModuleName(Sports) then Some(Sports)
      else if name == ModuleName(MaternalChild) then Some(MaternalChild)
      else None)
  {
    FindModuleCons(MaternalChild, [], name);
    FindModuleCons(Sports, [MaternalChild], name);
    FindModuleCons(Clinical, [Sports, MaternalChild], name);
    assert [MaternalChild] == [MaternalChild] + [];
    assert [Sports, MaternalChild] == [Sports] + [MaternalChild];
    assert [Clinical, Sports, MaternalChild] == [Clinical] + [Sports, MaternalChild];
  }
}
