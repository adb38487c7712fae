/**
 * What the simulated report promises, proved about the declarative report of `ReportSpec`
 * (which `ReportEngine.GenerateReportSimulated` is proved to compute): how the keyword
 * rules fire, which bullets each field produces, what a known or an unknown module name
 * does to each section, that no section is ever empty, and the shape of the summary.
 */
module ReportProperties {
  import opened Wrappers
  import opened PyStr
  import opened ReportSpec

  // ---------------------------------------------------------------------------
  // Keyword matching
  // ---------------------------------------------------------------------------

  /** Some term of the list occurs in `t`, at some position. */
  lemma {:induction false} AnyTermInIff(t: string, terms: seq<string>)
    ensures AnyTermIn(t, terms) <==> exists k, i :: 0 <= k < |terms| && OccursAt(t, terms[k], i)
    decreases |terms|
  {
    if |terms| > 0 {
      ContainsIff(t, terms[0]);
      AnyTermInIff(t, terms[1..]);
      if exists k, i :: 0 <= k < |terms| && OccursAt(t, terms[k], i) {
        var k, i :| 0 <= k < |terms| && OccursAt(t, terms[k], i);
        if k > 0 {
          assert OccursAt(t, terms[1..][k - 1], i);
        }
      }
      if AnyTermIn(t, terms[1..]) {
        var k, i :| 0 <= k < |terms[1..]| && OccursAt(t, terms[1..][k], i);
        assert OccursAt(t, terms[k + 1], i);
      }
    }
  }

  /** `_contains_any(text, terms)`: some term occurs in the lower-cased text (`None` reads as
      the empty text, in which no non-empty term occurs). */
  lemma ContainsAnyIff(text: Option<string>, terms: seq<string>)
    ensures ContainsAny(text, terms)
      <==> exists k, i :: 0 <= k < |terms| && OccursAt(Lower(OrEmpty(text)), terms[k], i)
  {
    AnyTermInIff(Lower(OrEmpty(text)), terms);
  }

  /** "Cansaço extremo" as the complaint fires the fatigue rule: its stripped, lower-cased form
      starts with the keyword "cansaço". */
  lemma ExtremeTirednessFires(goals: string)
    ensures Fires(FatigueRule, Strip(OrEmpty(Some("Cansaço extremo"))), goals)
  {
    var c := "Cansaço extremo";
    assert TrimLeft(c) == c;
    assert TrimRight(c) == c;
    var t := Lower(c);
    assert t[..7] == "cansaço";
  }

  // ---------------------------------------------------------------------------
  // The bullets of a group's fields
  // ---------------------------------------------------------------------------

  /** The blank fields of `fs`, in order: the reference for the missing-data bullets. */
  function BlankFields(fs: seq<FieldId>, extra: Extra): (blank: seq<FieldId>)
    ensures |blank| <= |fs|
  {
    if |fs| == 0 then []
    else
      var f := fs[|fs| - 1];
      BlankFields(fs[..|fs| - 1], extra) + (if |FieldValue(extra, f)| == 0 then [f] else [])
  }

  /** A field is among the blank fields exactly when it is one of `fs` and its stripped
      value is empty (an absent key and `None` both read as empty). */
  lemma {:induction false} BlankFieldsIff(fs: seq<FieldId>, extra: Extra, f: FieldId)
    ensures f in BlankFields(fs, extra) <==> f in fs && |FieldValue(extra, f)| == 0
    decreases |fs|
  {
    if |fs| > 0 {
      BlankFieldsIff(fs[..|fs| - 1], extra, f);
      assert fs == fs[..|fs| - 1] + [fs[|fs| - 1]];
    }
  }

  /** The missing-data bullets of the fields are one "not informed" line per blank field,
      in field order. */
  lemma {:induction false} MissingPerBlankField(fs: seq<FieldId>, extra: Extra)
    ensures var items, blank := FieldItems(fs, extra, Missing), BlankFields(fs, extra);
      |items| == |blank| && forall i :: 0 <= i < |items| ==> items[i] == NotInformed(blank[i])
    decreases |fs|
  {
    if |fs| > 0 {
      MissingPerBlankField(fs[..|fs| - 1], extra);
    }
  }

  /** A field is reported as missing exactly when it is blank. */
  lemma {:induction false} NotInformedPerBlankField(fs: seq<FieldId>, extra: Extra, f: FieldId)
    ensures NotInformed(f) in FieldItems(fs, extra, Missing) <==> f in fs && |FieldValue(extra, f)| == 0
    decreases |fs|
  {
    if |fs| > 0 {
      NotInformedPerBlankField(fs[..|fs| - 1], extra, f);
      assert fs == fs[..|fs| - 1] + [fs[|fs| - 1]];
    }
  }

  /** The fields produce only echoes, missing-data lines and field steps. */
  lemma {:induction false} FieldItemsKinds(fs: seq<FieldId>, extra: Extra, s: Section)
    ensures forall b :: b in FieldItems(fs, extra, s) ==> b.Echo? || b.NotInformed? || b.FieldStep?
    decreases |fs|
  {
    if |fs| > 0 {
      FieldItemsKinds(fs[..|fs| - 1], extra, s);
    }
  }

  /** A filled field is echoed, with its stripped value verbatim, among the attention points;
      nothing else is. */
  lemma {:induction false} EchoPerFilledField(fs: seq<FieldId>, extra: Extra, f: FieldId, v: string)
    ensures Echo(f, v) in FieldItems(fs, extra, Attention)
      <==> f in fs && v == FieldValue(extra, f) && |v| > 0
    decreases |fs|
  {
    if |fs| > 0 {
      EchoPerFilledField(fs[..|fs| - 1], extra, f, v);
      assert fs == fs[..|fs| - 1] + [fs[|fs| - 1]];
    }
  }

  /** A field adds a next step exactly when it is one of the fields that have one and it is filled. */
  lemma {:induction false} StepPerFilledField(fs: seq<FieldId>, extra: Extra, f: FieldId)
    ensures FieldStep(f) in FieldItems(fs, extra, NextSteps)
      <==> f in fs && HasStep(f) && |FieldValue(extra, f)| > 0
    decreases |fs|
  {
    if |fs| > 0 {
      StepPerFilledField(fs[..|fs| - 1], extra, f);
      assert fs == fs[..|fs| - 1] + [fs[|fs| - 1]];
    }
  }

  /** Every field produces exactly one bullet among the attention points and the missing data. */
  lemma {:induction false} OneBulletPerField(fs: seq<FieldId>, extra: Extra)
    ensures |FieldItems(fs, extra, Attention)| + |FieldItems(fs, extra, Missing)| == |fs|
    decreases |fs|
  {
    if |fs| > 0 {
      OneBulletPerField(fs[..|fs| - 1], extra);
    }
  }

  /** A string occurs, verbatim, where it is placed between two others. */
  lemma OccursBetween(pre: string, v: string, post: string)
    ensures OccursAt(pre + v + post, v, |pre|)
  {
    assert (pre + v + post)[|pre|..|pre| + |v|] == v;
  }

  /** An echo quotes the field's value verbatim, right after the heading and ": ". */
  lemma EchoQuotesValue(f: FieldId, v: string)
    ensures OccursAt(Text(Echo(f, v)), v, |Heading(f)| + 2)
    ensures Contains(Text(Echo(f, v)), v)
  {
    var pre, post := Heading(f) + ": ", ". " + Advice(f);
    assert Text(Echo(f, v)) == pre + v + post;
    OccursBetween(pre, v, post);
    ContainsIff(Text(Echo(f, v)), v);
  }

  // ---------------------------------------------------------------------------
  // Module selection
  // ---------------------------------------------------------------------------

  /** Each group's own name selects that group. */
  lemma SelectsOwnModule(m: Module)
    ensures SelectModule(ModuleName(m)) == Some(m)
  {
    SelectModuleByName(ModuleName(m));
    assert ModuleName(Clinical)[9] != ModuleName(Sports)[9];
    assert ModuleName(Clinical)[0] != ModuleName(MaternalChild)[0];
    assert ModuleName(Sports)[0] != ModuleName(MaternalChild)[0];
  }

  /** A section of a report for a known module: the keyword rules' bullets, then the group's,
      or the canned line when there are none. */
  lemma KnownSection(c: string, g: string, extra: Extra, m: Module, s: Section)
    ensures var items := CrossItems(c, g, s) + GroupItems(m, extra, s);
      Contributions(c, g, ModuleName(m), extra, s) == items
      && SectionItems(c, g, ModuleName(m), extra, s) == if |items| == 0 then [Fallback(s)] else items
  {
    SelectsOwnModule(m);
  }

  /** A section of a report for any other module name: only the keyword rules' bullets, or
      the canned line when there are none. */
  lemma UnknownSection(c: string, g: string, moduleName: string, extra: Extra, s: Section)
    requires moduleName != ModuleName(Clinical) && moduleName != ModuleName(Sports)
      && moduleName != ModuleName(MaternalChild)
    ensures var items := CrossItems(c, g, s);
      SectionItems(c, g, moduleName, extra, s) == if |items| == 0 then [Fallback(s)] else items
  {
    SelectModuleByName(moduleName);
    assert ModuleItems(moduleName, extra, s) == [];
  }

  /** The keyword rules' bullets of a section: one per fired rule, fatigue first, all of the
      section's own rule kind. */
  lemma CrossItemsShape(c: string, g: string, s: Section)
    ensures var items, f, w := CrossItems(c, g, s), Fires(FatigueRule, c, g), Fires(WeightLossRule, c, g);
      (s == Missing || s == FollowUp ==> items == [])
      && (s != Missing && s != FollowUp ==>
        |items| == (if f then 1 else 0) + (if w then 1 else 0)
        && (f ==> items[0] == RuleItems(FatigueRule, s)[0])
        && (!f && w ==> items[0] == RuleItems(WeightLossRule, s)[0])
        && (f && w ==> items == RuleItems(FatigueRule, s) + RuleItems(WeightLossRule, s))
        && (f && !w ==> items == RuleItems(FatigueRule, s))
        && (!f && w ==> items == RuleItems(WeightLossRule, s))
        && (!f && !w ==> items == []))
    ensures forall b :: b in CrossItems(c, g, s) ==> b.RuleAssessment? || b.RuleAttention? || b.RuleStep?
    ensures forall b :: b in CrossItems(c, g, s) ==>
      (s == Assessment ==> b.RuleAssessment?) && (s == Attention ==> b.RuleAttention?)
      && (s == NextSteps ==> b.RuleStep?)
  {
  }

  /** The group a module name selects contributes no keyword-rule bullet. */
  lemma ModuleItemsKinds(moduleName: string, extra: Extra, s: Section)
    ensures forall b :: b in ModuleItems(moduleName, extra, s) ==> !b.RuleAssessment? && !b.RuleAttention? && !b.RuleStep?
  {
    match SelectModule(moduleName)
    case None =>
    case Some(m) =>
      GroupFieldsInOrder(m, extra, s);
      FieldItemsKinds(Fields(m), extra, s);
  }

  // ---------------------------------------------------------------------------
  // The sections of a report
  // ---------------------------------------------------------------------------

  /** Each keyword rule's bullet is in the assessment, the attention points and the next steps
      exactly when that rule fires, whatever the module and whatever the other rule does. */
  lemma RuleBulletIff(c: string, g: string, moduleName: string, extra: Extra, s: Section, r: Rule)
    requires s == Assessment || s == Attention || s == NextSteps
    ensures RuleItems(r, s)[0] in SectionItems(c, g, moduleName, extra, s) <==> Fires(r, c, g)
  {
    var b := RuleItems(r, s)[0];
    CrossItemsShape(c, g, s);
    ModuleItemsKinds(moduleName, extra, s);
    assert b !in ModuleItems(moduleName, extra, s);
    assert b != Fallback(s);
  }

  /** The fatigue rule's bullets open the assessment, the attention points and the next steps
      exactly when the lower-cased complaint contains a fatigue keyword, ahead of every
      other bullet of those sections. */
  lemma FatigueComesFirst(c: string, g: string, moduleName: string, extra: Extra, s: Section)
    requires s == Assessment || s == Attention || s == NextSteps
    ensures Fires(FatigueRule, c, g) <==> SectionItems(c, g, moduleName, extra, s)[0] == RuleItems(FatigueRule, s)[0]
  {
    var cross, group := CrossItems(c, g, s), ModuleItems(moduleName, extra, s);
    CrossItemsShape(c, g, s);
    ModuleItemsKinds(moduleName, extra, s);
    if |cross| == 0 && |group| > 0 {
      assert group[0] in group;
    }
  }

  /** For one of the three module names, the group's context line is the last assessment
      line, after the keyword rules' lines, and the assessment never falls back. */
  lemma KnownModuleAssessment(c: string, g: string, extra: Extra, m: Module)
    ensures var items := SectionItems(c, g, ModuleName(m), extra, Assessment);
      items == Contributions(c, g, ModuleName(m), extra, Assessment)
      && items == CrossItems(c, g, Assessment) + [Context(m)]
  {
    KnownSection(c, g, extra, m, Assessment);
  }

  /** For one of the three module names, the group's plan is the last next step and the next
      steps never fall back. */
  lemma KnownModuleNextSteps(c: string, g: string, extra: Extra, m: Module)
    ensures var steps := SectionItems(c, g, ModuleName(m), extra, NextSteps);
      steps == Contributions(c, g, ModuleName(m), extra, NextSteps) && steps[|steps| - 1] == Plan(m)
  {
    KnownSection(c, g, extra, m, NextSteps);
  }

  /** For one of the three module names, the follow-up is exactly the group's own line. */
  lemma KnownModuleFollowUp(c: string, g: string, extra: Extra, m: Module)
    ensures SectionItems(c, g, ModuleName(m), extra, FollowUp) == [Reassess(m)]
  {
    KnownSection(c, g, extra, m, FollowUp);
    CrossItemsShape(c, g, FollowUp);
  }

  /** For one of the three module names, the missing data is one "not informed" line per
      blank field of the group, in field order, or the canned line when every field is filled. */
  lemma KnownModuleMissing(c: string, g: string, extra: Extra, m: Module)
    ensures var missing, blank := SectionItems(c, g, ModuleName(m), extra, Missing), BlankFields(Fields(m), extra);
      if |blank| == 0 then missing == [Fallback(Missing)]
      else |missing| == |blank| && forall i :: 0 <= i < |missing| ==> missing[i] == NotInformed(blank[i])
  {
    var group := GroupFieldItems(m, extra, Missing);
    KnownSection(c, g, extra, m, Missing);
    CrossItemsShape(c, g, Missing);
    GroupFieldsInOrder(m, extra, Missing);
    MissingPerBlankField(Fields(m), extra);
    assert [] + group == group;
  }

  /** For any other module name, the follow-up and the missing data are the canned lines. */
  lemma UnknownModuleCanned(c: string, g: string, moduleName: string, extra: Extra)
    requires moduleName != ModuleName(Clinical) && moduleName != ModuleName(Sports)
      && moduleName != ModuleName(MaternalChild)
    ensures SectionItems(c, g, moduleName, extra, FollowUp) == [Fallback(FollowUp)]
    ensures SectionItems(c, g, moduleName, extra, Missing) == [Fallback(Missing)]
  {
    UnknownSection(c, g, moduleName, extra, FollowUp);
    UnknownSection(c, g, moduleName, extra, Missing);
    CrossItemsShape(c, g, FollowUp);
    CrossItemsShape(c, g, Missing);
  }

  /** For any other module name, the assessment, the attention points and the next steps fall
      back exactly when neither keyword rule fired. */
  lemma UnknownModuleFallsBack(c: string, g: string, moduleName: string, extra: Extra, s: Section)
    requires moduleName != ModuleName(Clinical) && moduleName != ModuleName(Sports)
      && moduleName != ModuleName(MaternalChild)
    requires s == Assessment || s == Attention || s == NextSteps
    ensures SectionItems(c, g, moduleName, extra, s) == [Fallback(s)]
      <==> !Fires(FatigueRule, c, g) && !Fires(WeightLossRule, c, g)
  {
    UnknownSection(c, g, moduleName, extra, s);
    CrossItemsShape(c, g, s);
    var items := CrossItems(c, g, s);
    if |items| > 0 {
      assert items[0] in items;
    }
  }

  /** A field of the selected group is echoed among the attention points exactly when its
      stripped value is non-empty. */
  lemma FieldEchoed(c: string, g: string, extra: Extra, m: Module, f: FieldId)
    requires f in Fields(m)
    ensures var v := FieldValue(extra, f);
      |v| > 0 <==> Echo(f, v) in SectionItems(c, g, ModuleName(m), extra, Attention)
  {
    var v := FieldValue(extra, f);
    var cross, group := CrossItems(c, g, Attention), GroupFieldItems(m, extra, Attention);
    KnownSection(c, g, extra, m, Attention);
    CrossItemsShape(c, g, Attention);
    GroupFieldsInOrder(m, extra, Attention);
    EchoPerFilledField(Fields(m), extra, f, v);
    assert Echo(f, v) in cross + group <==> Echo(f, v) in group;
  }

  /** A field of the selected group is reported as missing exactly when its stripped value is
      empty. */
  lemma FieldMissing(c: string, g: string, extra: Extra, m: Module, f: FieldId)
    requires f in Fields(m)
    ensures |FieldValue(extra, f)| == 0 <==> NotInformed(f) in SectionItems(c, g, ModuleName(m), extra, Missing)
  {
    var group := GroupFieldItems(m, extra, Missing);
    KnownSection(c, g, extra, m, Missing);
    CrossItemsShape(c, g, Missing);
    GroupFieldsInOrder(m, extra, Missing);
    NotInformedPerBlankField(Fields(m), extra, f);
    assert [] + group == group;
  }

  /** A field of the selected group adds its next step exactly when it has one and its
      stripped value is non-empty (lab results, training routine, growth curve). */
  lemma FieldAddsStep(c: string, g: string, extra: Extra, m: Module, f: FieldId)
    requires f in Fields(m)
    ensures |FieldValue(extra, f)| > 0 && HasStep(f)
      <==> FieldStep(f) in SectionItems(c, g, ModuleName(m), extra, NextSteps)
  {
    var cross, group := CrossItems(c, g, NextSteps), GroupFieldItems(m, extra, NextSteps);
    KnownSection(c, g, extra, m, NextSteps);
    CrossItemsShape(c, g, NextSteps);
    GroupFieldsInOrder(m, extra, NextSteps);
    StepPerFilledField(Fields(m), extra, f);
    assert FieldStep(f) in cross + (group + [Plan(m)]) <==> FieldStep(f) in group;
  }

  /** In the clinical group each of its three fields yields exactly one of an echo and a
      missing-data line, so the missing-data lines number the blank fields. */
  lemma ClinicalFieldCount(extra: Extra)
    ensures var attention := GroupFieldItems(Clinical, extra, Attention);
      var missing := GroupFieldItems(Clinical, extra, Missing);
      |attention| + |missing| == 3 && |missing| == |BlankFields(Fields(Clinical), extra)|
  {
    GroupFieldsInOrder(Clinical, extra, Attention);
    GroupFieldsInOrder(Clinical, extra, Missing);
    OneBulletPerField(Fields(Clinical), extra);
    MissingPerBlankField(Fields(Clinical), extra);
  }

  // ---------------------------------------------------------------------------
  // Rendering
  // ---------------------------------------------------------------------------

  /** A bullet whose text is one line. */
  predicate SingleLine(b: Bullet) {
    '\n' !in Text(b)
  }

  /** `"\n".join` of a non-empty list starts with its first element. */
  lemma {:induction false} JoinLinesStartsWithFirst(ls: seq<string>)
    requires |ls| > 0
    ensures |ls[0]| <= |JoinLines(ls)| && JoinLines(ls)[..|ls[0]|] == ls[0]
  {
    if |ls| > 1 {
      assert JoinLines(ls) == ls[0] + ("\n" + JoinLines(ls[1..]));
    }
  }

  /** A non-empty list of bullets renders as text that starts with a bullet marker. */
  lemma RenderStartsWithBullet(items: seq<Bullet>)
    requires |items| > 0
    ensures var text := Render(items); |text| >= 2 && text[..2] == "- "
  {
    var ls := Bulleted(items);
    JoinLinesStartsWithFirst(ls);
    assert ls[0] == "- " + Text(items[0]);
  }

  /** No section is ever empty: each renders as text that starts with a bullet marker. */
  lemma SectionStartsWithBullet(c: string, g: string, moduleName: string, extra: Extra, s: Section)
    ensures var text := Render(SectionItems(c, g, moduleName, extra, s));
      |text| >= 2 && text[..2] == "- "
  {
    var items := SectionItems(c, g, moduleName, extra, s);
    assert |items| > 0;
    RenderStartsWithBullet(items);
  }

  /** When every bullet's text is a single line, splitting the rendered section at newlines
      gives one line per bullet, each its text behind "- ". */
  lemma RenderedLines(items: seq<Bullet>)
    requires |items| > 0
    requires forall i :: 0 <= i < |items| ==> SingleLine(items[i])
    ensures var lines := SplitLines(Render(items));
      |lines| == |items|
      && forall i :: 0 <= i < |lines| ==> lines[i] == "- " + Text(items[i]) && lines[i][..2] == "- "
  {
    var ls := Bulleted(items);
    forall k | 0 <= k < |ls|
      ensures '\n' !in ls[k]
    {
      assert SingleLine(items[k]);
      assert ls[k] == "- " + Text(items[k]);
    }
    SplitJoinLines(ls);
  }

  /** Every bullet's text appears verbatim in its rendered section, right after its "- ". */
  lemma RenderContainsText(items: seq<Bullet>, b: Bullet)
    requires b in items
    ensures Contains(Render(items), Text(b))
  {
    var k :| 0 <= k < |items| && items[k] == b;
    var ls := Bulleted(items);
    assert ls[k] == "- " + Text(b) + "";
    JoinLinesContainsPart(ls, k, "- ", Text(b), "");
  }

  /** A filled field of the selected group appears verbatim in the rendered attention points. */
  lemma FieldValueRendered(c: string, g: string, extra: Extra, m: Module, f: FieldId)
    requires f in Fields(m)
    requires |FieldValue(extra, f)| > 0
    ensures Contains(Render(SectionItems(c, g, ModuleName(m), extra, Attention)), FieldValue(extra, f))
  {
    var v := FieldValue(extra, f);
    var items := SectionItems(c, g, ModuleName(m), extra, Attention);
    FieldEchoed(c, g, extra, m, f);
    RenderContainsText(items, Echo(f, v));
    EchoQuotesValue(f, v);
    ContainsTransitive(Render(items), Text(Echo(f, v)), v);
  }

  // ---------------------------------------------------------------------------
  // The summary
  // ---------------------------------------------------------------------------

  /** The summary's text is its four lines joined by newlines. */
  lemma SummaryJoined(moduleName: string, subtype: string, c: string, g: string, n: string)
    ensures var l1, l2, l3, l4 := "Módulo: " + moduleName + " (" + subtype + ")", "Queixa principal: " + c,
      "Objetivos: " + g, "Observações: " + (if |n| > 0 then n else "Não informado");
      Summary(moduleName, subtype, c, g, n) == l1 + "\n" + (l2 + "\n" + (l3 + "\n" + l4))
  {
    assert ")\n" == ")" + "\n";
  }

  /** `"\n".join` of four lines. */
  lemma JoinFour(l1: string, l2: string, l3: string, l4: string)
    ensures JoinLines([l1, l2, l3, l4]) == l1 + "\n" + (l2 + "\n" + (l3 + "\n" + l4))
  {
    assert [l3, l4][1..] == [l4];
    assert [l2, l3, l4][1..] == [l3, l4];
    assert [l1, l2, l3, l4][1..] == [l2, l3, l4];
    assert JoinLines([l3, l4]) == l3 + "\n" + l4;
    assert JoinLines([l2, l3, l4]) == l2 + "\n" + (l3 + "\n" + l4);
  }

  /** The summary is four lines: module and subtype, complaint, goals, and the notes or
      "Não informado" when the stripped notes are empty. */
  lemma SummaryLines(moduleName: string, subtype: string, c: string, g: string, n: string)
    requires '\n' !in moduleName && '\n' !in subtype && '\n' !in c && '\n' !in g && '\n' !in n
    ensures SplitLines(Summary(moduleName, subtype, c, g, n)) == [
      "Módulo: " + moduleName + " (" + subtype + ")",
      "Queixa principal: " + c,
      "Objetivos: " + g,
      "Observações: " + (if |n| > 0 then n else "Não informado")]
  {
    var l1 := "Módulo: " + moduleName + " (" + subtype + ")";
    var l2 := "Queixa principal: " + c;
    var l3 := "Objetivos: " + g;
    var l4 := "Observações: " + (if |n| > 0 then n else "Não informado");
    assert '\n' !in "Módulo: " && '\n' !in " (" && '\n' !in ")";
    assert '\n' !in "Queixa principal: " && '\n' !in "Objetivos: ";
    assert '\n' !in "Observações: " && '\n' !in "Não informado";
    SummaryJoined(moduleName, subtype, c, g, n);
    JoinFour(l1, l2, l3, l4);
    SplitJoinLines([l1, l2, l3, l4]);
  }
}
