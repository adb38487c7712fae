/**
 * The simulated report engine as the program runs it: five lists built by successive
 * appends under the keyword rules and the one module group the module name selects, then
 * a canned line for every list left empty, then each list rendered as dash bullets.
 *
 * Each module group is its own method here; it builds the group's bullets by the same
 * appends, and the engine appends them, in order, to the lists the keyword rules started.
 */
module ReportEngine {
  import opened Wrappers
  import opened PyStr
  import opened ReportSpec

  /** One field of a group: a filled value is echoed among the attention points (and, for
      the fields that have one, adds a next step); a blank one is reported as missing. */
  method AddField(f: FieldId, v: string, attention0: seq<Bullet>, nextSteps0: seq<Bullet>, missing0: seq<Bullet>)
    returns (attention: seq<Bullet>, nextSteps: seq<Bullet>, missing: seq<Bullet>)
    ensures attention == attention0 + FieldItem(f, v, Attention)
    ensures nextSteps == nextSteps0 + FieldItem(f, v, NextSteps)
    ensures missing == missing0 + FieldItem(f, v, Missing)
  {
    attention, nextSteps, missing := attention0, nextSteps0, missing0;
    if |v| > 0 {
      attention := attention + [Echo(f, v)];
      if HasStep(f) {
        nextSteps := nextSteps + [FieldStep(f)];
      }
    } else {
      missing := missing + [NotInformed(f)];
    }
  }

  /** The clinical group: its context line, an echo or a missing-data line per field (a next
      step for filled lab results), its plan and its follow-up. */
  method ClinicalGroup(extra: Extra)
    returns (assessment: seq<Bullet>, attention: seq<Bullet>, nextSteps: seq<Bullet>, missing: seq<Bullet>, followUp: seq<Bullet>)
    ensures assessment == GroupItems(Clinical, extra, Assessment)
    ensures attention == GroupItems(Clinical, extra, Attention)
    ensures nextSteps == GroupItems(Clinical, extra, NextSteps)
    ensures missing == GroupItems(Clinical, extra, Missing)
    ensures followUp == GroupItems(Clinical, extra, FollowUp)
  {
    var comorb := FieldValue(extra, Comorbidities);
    var labs := FieldValue(extra, Labs);
    var meds := FieldValue(extra, Meds);

    assessment, attention, nextSteps, missing, followUp := [Context(Clinical)], [], [], [], [];

    attention, nextSteps, missing := AddField(Comorbidities, comorb, attention, nextSteps, missing);

    attention, nextSteps, missing := AddField(Labs, labs, attention, nextSteps, missing);

    attention, nextSteps, missing := AddField(Meds, meds, attention, nextSteps, missing);

    nextSteps := nextSteps + [Plan(Clinical)];
    followUp := followUp + [Reassess(Clinical)];
  }

  /** The sports group: its context line, an echo or a missing-data line per field (a next
      step for a filled training routine), its plan and its follow-up. */
  method SportsGroup(extra: Extra)
    returns (assessment: seq<Bullet>, attention: seq<Bullet>, nextSteps: seq<Bullet>, missing: seq<Bullet>, followUp: seq<Bullet>)
    ensures assessment == GroupItems(Sports, extra, Assessment)
    ensures attention == GroupItems(Sports, extra, Attention)
    ensures nextSteps == GroupItems(Sports, extra, NextSteps)
    ensures missing == GroupItems(Sports, extra, Missing)
    ensures followUp == GroupItems(Sports, extra, FollowUp)
  {
    var training := FieldValue(extra, TrainingRoutine);
    var goalPerf := FieldValue(extra, PerformanceGoal);
    var comp := FieldValue(extra, BodyComp);

    assessment, attention, nextSteps, missing, followUp := [Context(Sports)], [], [], [], [];

    attention, nextSteps, missing := AddField(TrainingRoutine, training, attention, nextSteps, missing);

    attention, nextSteps, missing := AddField(PerformanceGoal, goalPerf, attention, nextSteps, missing);

    attention, nextSteps, missing := AddField(BodyComp, comp, attention, nextSteps, missing);

    nextSteps := nextSteps + [Plan(Sports)];
    followUp := followUp + [Reassess(Sports)];
  }

  /** The maternal-child group: its context line, an echo or a missing-data line per field (a
      next step for a filled growth curve), its plan and its follow-up. */
  method MaternalChildGroup(extra: Extra)
    returns (assessment: seq<Bullet>, attention: seq<Bullet>, nextSteps: seq<Bullet>, missing: seq<Bullet>, followUp: seq<Bullet>)
    ensures assessment == GroupItems(MaternalChild, extra, Assessment)
    ensures attention == GroupItems(MaternalChild, extra, Attention)
    ensures nextSteps == GroupItems(MaternalChild, extra, NextSteps)
    ensures missing == GroupItems(MaternalChild, extra, Missing)
    ensures followUp == GroupItems(MaternalChild, extra, FollowUp)
  {
    var childAge := FieldValue(extra, ChildAge);
    var breastfeeding := FieldValue(extra, Breastfeeding);
    var growth := FieldValue(extra, GrowthCurve);
    var allergy := FieldValue(extra, Allergy);

    assessment, attention, nextSteps, missing, followUp := [Context(MaternalChild)], [], [], [], [];

    attention, nextSteps, missing := AddField(ChildAge, childAge, attention, nextSteps, missing);

    attention, nextSteps, missing := AddField(Breastfeeding, breastfeeding, attention, nextSteps, missing);

    attention, nextSteps, missing := AddField(GrowthCurve, growth, attention, nextSteps, missing);

    attention, nextSteps, missing := AddField(Allergy, allergy, attention, nextSteps, missing);

    nextSteps := nextSteps + [Plan(MaternalChild)];
    followUp := followUp + [Reassess(MaternalChild)];
  }

  /** The two keyword rules, in order: fatigue terms in the complaint, then weight-loss terms
      in the goals; each rule that fires adds one assessment line, one attention point and one
      next step. */
  method KeywordRules(c: string, g: string) returns (assessment: seq<Bullet>, attention: seq<Bullet>, nextSteps: seq<Bullet>)
    ensures assessment == CrossItems(c, g, Assessment)
    ensures attention == CrossItems(c, g, Attention)
    ensures nextSteps == CrossItems(c, g, NextSteps)
  {
    assessment, attention, nextSteps := [], [], [];

    if ContainsAny(Some(c), Terms(FatigueRule)) {
      assessment := assessment + [RuleAssessment(FatigueRule)];
      attention := attention + [RuleAttention(FatigueRule)];
      nextSteps := nextSteps + [RuleStep(FatigueRule)];
    }

    if ContainsAny(Some(g), Terms(WeightLossRule)) {
      assessment := assessment + [RuleAssessment(WeightLossRule)];
      attention := attention + [RuleAttention(WeightLossRule)];
      nextSteps := nextSteps + [RuleStep(WeightLossRule)];
    }
  }

  /** The module dispatch: the name is compared with each group's name in turn, and the first
      group that matches contributes its bullets; an unknown name contributes none. */
  method ModuleGroup(moduleName: string, extra: Extra)
    returns (assessment: seq<Bullet>, attention: seq<Bullet>, nextSteps: seq<Bullet>, missing: seq<Bullet>, followUp: seq<Bullet>)
    ensures assessment == ModuleItems(moduleName, extra, Assessment)
    ensures attention == ModuleItems(moduleName, extra, Attention)
    ensures nextSteps == ModuleItems(moduleName, extra, NextSteps)
    ensures missing == ModuleItems(moduleName, extra, Missing)
    ensures followUp == ModuleItems(moduleName, extra, FollowUp)
  {
    SelectModuleByName(moduleName);
    if moduleName == ModuleName(Clinical) {
      assessment, attention, nextSteps, missing, followUp := ClinicalGroup(extra);
    } else if moduleName == ModuleName(Sports) {
      assessment, attention, nextSteps, missing, followUp := SportsGroup(extra);
    } else if moduleName == ModuleName(MaternalChild) {
      assessment, attention, nextSteps, missing, followUp := MaternalChildGroup(extra);
    } else {
      assessment, attention, nextSteps, missing, followUp := [], [], [], [], [];
    }
  }

  /** The five bullet lists of a report, from the stripped complaint and goals: the keyword
      rules' bullets, then the selected group's, then a canned line for each list left empty
      (appended to the assessment list, replacing the others). */
  method Sections(c: string, g: string, moduleName: string, extra: Extra)
    returns (assessment: seq<Bullet>, attention: seq<Bullet>, nextSteps: seq<Bullet>, missing: seq<Bullet>, followUp: seq<Bullet>)
    ensures assessment == SectionItems(c, g, moduleName, extra, Assessment)
    ensures attention == SectionItems(c, g, moduleName, extra, Attention)
    ensures nextSteps == SectionItems(c, g, moduleName, extra, NextSteps)
    ensures missing == SectionItems(c, g, moduleName, extra, Missing)
    ensures followUp == SectionItems(c, g, moduleName, extra, FollowUp)
  {
    assessment, attention, nextSteps := KeywordRules(c, g);
    missing, followUp := [], [];

    var a, at, ns, mi, fu := ModuleGroup(moduleName, extra);
    assessment, attention, nextSteps, missing, followUp :=
      assessment + a, attention + at, nextSteps + ns, missing + mi, followUp + fu;

    if |assessment| == 0 {
      assessment := assessment + [Fallback(Assessment)];
    }
    if |attention| == 0 {
      attention := [Fallback(Attention)];
    }
    if |nextSteps| == 0 {
      nextSteps := [Fallback(NextSteps)];
    }
    if |missing| == 0 {
      missing := [Fallback(Missing)];
    }
    if |followUp| == 0 {
      followUp := [Fallback(FollowUp)];
    }
  }

  /** The report for one consultation: exactly the declarative `Synthesize` of the same arguments. */
  method GenerateReportSimulated(
    moduleName: string, subtype: string,
    complaint: Option<string>, goals: Option<string>, notes: Option<string>,
    extra: Extra)
    returns (r: Report)
    ensures r == Synthesize(Request(moduleName, subtype, complaint, goals, notes, extra))
  {
    var c := Strip(OrEmpty(complaint));
    var g := Strip(OrEmpty(goals));
    var n := Strip(OrEmpty(notes));

    var summary := Summary(moduleName, subtype, c, g, n);

    var assessment, attention, nextSteps, missing, followUp := Sections(c, g, moduleName, extra);

    r := Report(summary, Render(assessment), Render(attention), Render(nextSteps), Render(missing), Render(followUp));
  }
}
