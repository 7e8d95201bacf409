/** What the predicate language says, construct by construct, in terms of its parts and of the values found. */
module PredicateMeaning {
  import opened Wrappers
  import opened Predicates
  import opened PredicateLaws

  // ----- combinations -----

  lemma {:induction false} EachValue(text: Text, ps: seq<Predicate>, profile: Profile)
    requires EvaluateEach(text, ps, profile).Ok?
    ensures |EvaluateEach(text, ps, profile).value| == |ps|
    ensures forall i :: 0 <= i < |ps| ==> Evaluate(text, ps[i], profile) == Ok(EvaluateEach(text, ps, profile).value[i])
  {
    if ps != [] {
      EachValue(text, ps[1..], profile);
      var rest := EvaluateEach(text, ps[1..], profile).value;
      forall i | 0 <= i < |ps|
        ensures Evaluate(text, ps[i], profile) == Ok(EvaluateEach(text, ps, profile).value[i])
      {
        assert i > 0 ==> ps[i] == ps[1..][i - 1];
      }
    }
  }

  lemma ConjunctionMeaning(results: seq<Tri>)
    ensures Conjunction(results) == Pass <==> forall i :: 0 <= i < |results| ==> results[i] == Pass
    ensures Conjunction(results) == Fail <==> exists i :: 0 <= i < |results| && results[i] == Fail
  {
    assert forall i :: 0 <= i < |results| ==> results[i] in results;
  }

  lemma DisjunctionMeaning(results: seq<Tri>)
    ensures Disjunction(results) == Pass <==> exists i :: 0 <= i < |results| && results[i] == Pass
    ensures Disjunction(results) == Fail <==> forall i :: 0 <= i < |results| ==> results[i] == Fail
  {
    assert forall i :: 0 <= i < |results| ==> results[i] in results;
  }

  /** All of them: passes when every part passes, and fails when some part fails. */
  lemma AllMeaning(text: Text, ps: seq<Predicate>, profile: Profile)
    requires Fault(All(ps)) == None
    ensures Evaluate(text, All(ps), profile).Ok?
    ensures Evaluate(text, All(ps), profile) == Ok(Pass) <==>
              forall i :: 0 <= i < |ps| ==> Evaluate(text, ps[i], profile) == Ok(Pass)
    ensures Evaluate(text, All(ps), profile) == Ok(Fail) <==>
              exists i :: 0 <= i < |ps| && Evaluate(text, ps[i], profile) == Ok(Fail)
  {
    EachReports(text, ps, profile);
    EachValue(text, ps, profile);
    var results := EvaluateEach(text, ps, profile).value;
    assert Evaluate(text, All(ps), profile) == Ok(Conjunction(results));
    hide Evaluate, EvaluateEach, Conjunction, Disjunction;
    ConjunctionMeaning(results);
  }

  /** Any of them: passes when some part passes, and fails when every part fails. */
  lemma AnyMeaning(text: Text, ps: seq<Predicate>, profile: Profile)
    requires Fault(Any(ps)) == None
    ensures Evaluate(text, Any(ps), profile).Ok?
    ensures Evaluate(text, Any(ps), profile) == Ok(Pass) <==>
              exists i :: 0 <= i < |ps| && Evaluate(text, ps[i], profile) == Ok(Pass)
    ensures Evaluate(text, Any(ps), profile) == Ok(Fail) <==>
              forall i :: 0 <= i < |ps| ==> Evaluate(text, ps[i], profile) == Ok(Fail)
  {
    EachReports(text, ps, profile);
    EachValue(text, ps, profile);
    var results := EvaluateEach(text, ps, profile).value;
    assert Evaluate(text, Any(ps), profile) == Ok(Disjunction(results));
    hide Evaluate, EvaluateEach, Conjunction, Disjunction;
    DisjunctionMeaning(results);
  }

  /** None of it: passes and fails the other way round, and stays unknown when its part is. */
  lemma NotMeaning(text: Text, p: Predicate, profile: Profile)
    requires Fault(p) == None
    ensures Evaluate(text, Not(p), profile).Ok?
    ensures Evaluate(text, Not(p), profile) == Ok(Pass) <==> Evaluate(text, p, profile) == Ok(Fail)
    ensures Evaluate(text, Not(p), profile) == Ok(Fail) <==> Evaluate(text, p, profile) == Ok(Pass)
  {
    EvaluateReports(text, p, profile);
  }

  // ----- single tests -----

  /** A field nobody stated is unknown to every test but the one that asks whether it is stated. */
  lemma AbsentField(text: Text, field: string, op: Op, value: Json, profile: Profile)
    requires Fault(Leaf(field, op, value)) == None && Resolve(text, profile, field) == None
    ensures Evaluate(text, Leaf(field, op, value), profile) == Ok(if op == Exists then Fail else Unknown)
  {
  }

  lemma PresentField(text: Text, field: string, op: Op, value: Json, profile: Profile, found: Json)
    requires Fault(Leaf(field, op, value)) == None && Resolve(text, profile, field) == Some(found)
    ensures Evaluate(text, Leaf(field, op, value), profile) == Ok(Compare(text, found, op, value))
    ensures op == Exists ==> Evaluate(text, Leaf(field, op, value), profile) == Ok(Pass)
  {
  }

  ghost predicate Decided(t: Tri, passes: bool) {
    t == if passes then Pass else Fail
  }

  lemma NumberTests(text: Text, v: real, n: real)
    ensures Decided(Compare(text, JNum(v), Equal, JNum(n)), v == n)
    ensures Decided(Compare(text, JNum(v), NotEqual, JNum(n)), v != n)
    ensures Decided(Compare(text, JNum(v), Greater, JNum(n)), v > n)
    ensures Decided(Compare(text, JNum(v), AtLeast, JNum(n)), v >= n)
    ensures Decided(Compare(text, JNum(v), Less, JNum(n)), v < n)
    ensures Decided(Compare(text, JNum(v), AtMost, JNum(n)), v <= n)
  {
  }

  /** Text compares after folding, and never equals a number. */
  lemma TextTests(text: Text, s: string, t: string, n: real)
    ensures Decided(Compare(text, JStr(s), Equal, JStr(t)), text.fold(s) == text.fold(t))
    ensures Decided(Compare(text, JStr(s), NotEqual, JStr(t)), text.fold(s) != text.fold(t))
    ensures Decided(Compare(text, JNum(n), Equal, JStr(t)), false)
  {
  }

  /** Text that reads as a number is ordered like one; other text is in no order at all. */
  lemma TextOrder(text: Text, s: string, op: Op, n: real)
    requires op.Ordering()
    ensures text.parse(s) == None ==> Compare(text, JStr(s), op, JNum(n)) == Unknown
    ensures text.parse(s).Some? ==>
              Compare(text, JStr(s), op, JNum(n)) == Compare(text, JNum(text.parse(s).value), op, JNum(n))
  {
  }

  /** Nothing but numbers, and text that reads as one, is in any order. */
  lemma OrderNeedsNumbers(text: Text, value: Json, op: Op, target: Json)
    requires op.Ordering()
    requires !(value.JNum? || value.JStr?) || !(target.JNum? || target.JStr?)
    ensures Compare(text, value, op, target) == Unknown
  {
  }

  function Words(words: seq<string>): seq<Json> {
    seq(|words|, i requires 0 <= i < |words| => JStr(words[i]))
  }

  ghost predicate Among(text: Text, s: string, words: seq<string>) {
    exists i :: 0 <= i < |words| && text.fold(words[i]) == text.fold(s)
  }

  lemma MemberMeaning(text: Text, s: string, words: seq<string>)
    ensures Member(text, JStr(s), Words(words)) <==> Among(text, s, words)
  {
    var items := Words(words);
    if Member(text, JStr(s), items) {
      var i :| 0 <= i < |items| && Norm(text, items[i]) == Norm(text, JStr(s));
      assert text.fold(words[i]) == text.fold(s);
    }
    if Among(text, s, words) {
      var i :| 0 <= i < |words| && text.fold(words[i]) == text.fold(s);
      assert Norm(text, items[i]) == Norm(text, JStr(s));
    }
  }

  /** `in` and `not_in` ask for one value among listed ones. */
  lemma MembershipTests(text: Text, s: string, words: seq<string>)
    ensures Decided(Compare(text, JStr(s), In, JList(Words(words))), Among(text, s, words))
    ensures Decided(Compare(text, JStr(s), NotIn, JList(Words(words))), !Among(text, s, words))
  {
    MemberMeaning(text, s, words);
    hide Member, Among;
  }

  lemma {:induction false} NeedlesMeaning(text: Text, wanted: seq<string>, held: seq<string>)
    ensures Decided(
              AnyNeedle(text, Words(wanted), Words(held)),
              exists i :: 0 <= i < |wanted| && Among(text, wanted[i], held))
  {
    if wanted != [] {
      NeedlesMeaning(text, wanted[1..], held);
      MemberMeaning(text, wanted[0], held);
      hide Member, Among;
      assert Words(wanted)[1..] == Words(wanted[1..]) && Words(wanted)[0] == JStr(wanted[0]);
      assert forall i :: 0 < i < |wanted| ==> wanted[i] == wanted[1..][i - 1];
      assert forall i :: 0 <= i < |wanted| - 1 ==> wanted[1..][i] == wanted[i + 1];
    }
  }

  /** `contains` asks whether any of the wanted values is among those held. */
  lemma ContainsTests(text: Text, held: seq<string>, wanted: seq<string>)
    ensures Decided(Compare(text, JList(Words(held)), Contains, JList(Words(wanted))),
                    exists i :: 0 <= i < |wanted| && Among(text, wanted[i], held))
  {
    NeedlesMeaning(text, wanted, held);
    WordsHashable(held);
    hide AnyNeedle, Among, Words;
  }

  lemma WordsHashable(words: seq<string>)
    ensures forall i :: 0 <= i < |Words(words)| ==> Hashable(Words(words)[i])
  {
  }

  /** A list or an object is nobody's member, and a number or null has no members to ask for. */
  lemma NoMembership(text: Text, value: Json, target: Json)
    requires value.JList? || value.JObj? || target.JNum? || target.JNull?
    ensures Compare(text, value, In, target) == Unknown && Compare(text, value, NotIn, target) == Unknown
  {
  }

  /** Among lists and objects nothing can be looked for either. */
  lemma NoContents(text: Text, held: seq<Json>, target: Json, i: nat)
    requires i < |held| && (held[i].JList? || held[i].JObj?)
    ensures Compare(text, JList(held), Contains, target) == Unknown
    ensures held[i].JObj? ==> Compare(text, held[i], Contains, target) == Unknown
  {
    assert [held[i]][0] == held[i];
    assert AnyUnhashable([held[i]]);
  }

  /** A single value held, or wanted, is looked at like a list of it. */
  lemma OneIsAList(text: Text, value: Json, target: Json)
    ensures !value.JList? ==> Compare(text, value, Contains, target) == Compare(text, JList([value]), Contains, target)
    ensures !target.JList? ==> Compare(text, value, Contains, target) == Compare(text, value, Contains, JList([target]))
  {
    hide AnyNeedle, AnyUnhashable;
  }

  ghost predicate Passed(text: Text, wanted: seq<Json>, held: seq<Json>, n: nat)
    requires n <= |wanted|
  {
    forall k :: 0 <= k < n ==> !wanted[k].JList? && !wanted[k].JObj? && !Member(text, wanted[k], held)
  }

  lemma {:induction false} NeedlesInOrder(text: Text, wanted: seq<Json>, held: seq<Json>, n: nat)
    requires n <= |wanted| && Passed(text, wanted, held, n)
    ensures AnyNeedle(text, wanted, held) == AnyNeedle(text, wanted[n..], held)
  {
    if n > 0 {
      assert forall k :: 0 <= k < n - 1 ==> wanted[1..][k] == wanted[k + 1];
      hide Member;
      NeedlesInOrder(text, wanted[1..], held, n - 1);
      assert wanted[1..][n - 1..] == wanted[n..];
    } else {
      assert wanted[0..] == wanted;
    }
  }

  /** Wanted values are tried in order, and the first that cannot be looked for or is there decides. */
  lemma FirstWantedDecides(text: Text, held: seq<Json>, wanted: seq<Json>, n: nat)
    requires n <= |wanted| && Passed(text, wanted, held, n)
    requires forall i :: 0 <= i < |held| ==> !held[i].JList? && !held[i].JObj?
    ensures
      var t := Compare(text, JList(held), Contains, JList(wanted));
      && (n == |wanted| ==> t == Fail)
      && (n < |wanted| && (wanted[n].JList? || wanted[n].JObj?) ==> t == Unknown)
      && (n < |wanted| && !wanted[n].JList? && !wanted[n].JObj? && Member(text, wanted[n], held) ==> t == Pass)
  {
    NeedlesInOrder(text, wanted, held, n);
    hide Member, Passed;
    assert !AnyUnhashable(held);
  }

  function Letters(s: string): seq<string> {
    seq(|s|, i requires 0 <= i < |s| => [s[i]])
  }

  lemma {:induction false} CharactersMeaning(s: string)
    ensures Characters(s) == Words(Letters(s))
  {
    if s != "" {
      CharactersMeaning(s[1..]);
      assert Letters(s) == [[s[0]]] + Letters(s[1..]);
      assert Words(Letters(s)) == [JStr([s[0]])] + Words(Letters(s[1..]));
    }
  }

  /** A text has its letters for members, an object its names. */
  lemma LettersAreMembers(text: Text, s: string, t: string)
    ensures Decided(Compare(text, JStr(s), In, JStr(t)), Among(text, s, Letters(t)))
  {
    CharactersMeaning(t);
    MembershipTests(text, s, Letters(t));
    hide Member, Among, Words, Letters, Characters;
  }

  lemma NamesAreMembers(text: Text, s: string, fields: map<string, Json>)
    ensures Decided(Compare(text, JStr(s), In, JObj(fields)), exists k :: k in fields && text.fold(k) == text.fold(s))
  {
    assert KeyMember(text, JStr(s), fields) <==> exists k :: k in fields && text.fold(k) == text.fold(s);
    hide KeyMember;
  }

  // ----- near misses -----

  /** A near miss is a failure that would pass within the tolerance given. */
  lemma NearMissMeaning(text: Text, rule: Predicate, profile: Profile, tolerance: Option<real>)
    requires Fault(rule) == None
    ensures EvaluateWithBorderline(text, rule, profile, tolerance).Ok?
    ensures
      var (strict, near) := EvaluateWithBorderline(text, rule, profile, tolerance).value;
      && Evaluate(text, rule, profile) == Ok(strict)
      && (near <==> strict == Fail && tolerance.Some? && tolerance.value != 0.0
                    && Evaluate(text, Relax(rule, tolerance.value), profile) == Ok(Pass))
  {
    BorderlineReports(text, rule, profile, tolerance);
    EvaluateReports(text, rule, profile);
  }

  ghost predicate Window(op: Op, n: real, t: real, v: real)
    requires op.Ordering()
  {
    match op
    case AtLeast => n - n * t <= v < n
    case Greater => n - n * t < v <= n
    case AtMost => n < v <= n + n * t
    case Less => n <= v < n + n * t
  }

  /** For a bound on a number, the near misses are exactly the values between the relaxed bound and the bound. */
  lemma NearMissWindow(text: Text, field: string, op: Op, n: real, profile: Profile, v: real, t: real)
    requires op.Ordering() && t != 0.0 && Fault(Leaf(field, op, JNum(n))) == None
    requires Resolve(text, profile, field) == Some(JNum(v))
    ensures
      var outcome := EvaluateWithBorderline(text, Leaf(field, op, JNum(n)), profile, Some(t));
      outcome.Ok? && (outcome.value.1 <==> Window(op, n, t, v))
  {
    var leaf := Leaf(field, op, JNum(n));
    NearMissMeaning(text, leaf, profile, Some(t));
    RelaxKeepsFault(leaf, t);
    var bound := Relax(leaf, t).value.n;
    PresentField(text, field, op, JNum(n), profile, JNum(v));
    PresentField(text, field, op, JNum(bound), profile, JNum(v));
    NumberTests(text, v, n);
    NumberTests(text, v, bound);
    BoundMoves(op, n, t);
    hide Compare, Fault, Resolve, Lowered, Raised, Evaluate, EvaluateWithBorderline;
  }

  lemma BoundMoves(op: Op, n: real, t: real)
    requires op.Ordering()
    ensures
      var bound := RelaxLeaf(Leaf("", op, JNum(n)), t).value.n;
      bound == if op.Greater? || op.AtLeast? then n - n * t else n + n * t
  {
  }

  // ----- fields -----

  lemma {:induction false} StatedMeaning(names: seq<Option<string>>, s: string)
    ensures JStr(s) in Stated(names) <==> s != "" && Some(s) in names
    ensures forall v :: v in Stated(names) ==> v.JStr?
  {
    if names != [] {
      StatedMeaning(names[1..], s);
      assert names == [names[0]] + names[1..];
    }
  }

  lemma NoLanguagePath(path: string)
    requires |path| >= 2 && (path[0] != 'l' || path[1] != 'a')
    ensures LanguageCode(path) == None
  {
    forall code
      ensures !LanguagePath(path, code)
    {
      var exact := LANGUAGE_PREFIX + code + LANGUAGE_SUFFIX;
      assert exact[0] == 'l' && exact[1] == 'a';
    }
  }

  /** The record lists resolve to the names stated in them, and to nothing when none is. */
  ghost predicate Lists(found: Option<Json>, names: seq<Option<string>>) {
    match found
    case None => forall s :: Some(s) in names ==> s == ""
    case Some(v) => v.JList? && forall s :: JStr(s) in v.items <==> s != "" && Some(s) in names
  }

  lemma ListResolves(names: seq<Option<string>>)
    ensures Lists(StatedList(names), names)
  {
    forall s
      ensures JStr(s) in Stated(names) <==> s != "" && Some(s) in names
    {
      StatedMeaning(names, s);
    }
    hide Stated;
    if Stated(names) != [] {
      StatedMeaning(names, "");
    }
  }

  lemma RecordLists(text: Text, profile: Profile)
    ensures Registered("skills.canonical") && Lists(Resolve(text, profile, "skills.canonical"), profile.skills)
    ensures Registered("certifications.name_canonical")
         && Lists(Resolve(text, profile, "certifications.name_canonical"), profile.certifications)
    ensures Registered("experience.title_canonical")
         && Lists(Resolve(text, profile, "experience.title_canonical"), profile.titles)
  {
    ListResolves(profile.skills);
    ListResolves(profile.certifications);
    ListResolves(profile.titles);
    NoLanguagePath("skills.canonical");
    NoLanguagePath("certifications.name_canonical");
    NoLanguagePath("experience.title_canonical");
    hide Lists, StatedList, LanguageCode;
  }

  /** The first entry for a language decides, by its level; no entry, or one without a known level, states nothing. */
  lemma {:induction false} LanguageMeaning(text: Text, languages: seq<Language>, code: string, i: nat)
    requires i <= |languages| && forall k :: 0 <= k < i ==> text.lower(languages[k].code) != code
    ensures i == |languages| ==> LanguageRank(text, languages, code) == None
    ensures i < |languages| && text.lower(languages[i].code) == code ==>
              LanguageRank(text, languages, code) ==
              if languages[i].cefr.Some? && languages[i].cefr.value in CEFR_RANK
              then Some(JNum(CEFR_RANK[languages[i].cefr.value] as real)) else None
  {
    if i > 0 {
      assert forall k :: 0 <= k < i - 1 ==> languages[1..][k] == languages[k + 1];
      LanguageMeaning(text, languages[1..], code, i - 1);
    }
  }

  /** Language levels from the lowest up; a native speaker ranks with the highest. */
  const LEVELS := ["A1", "A2", "B1", "B2", "C1", "C2"]

  lemma LevelsOrdered(i: nat, level: string)
    requires i < |LEVELS|
    ensures LEVELS[i] in CEFR_RANK && CEFR_RANK[LEVELS[i]] == i + 1
    ensures "native" in CEFR_RANK && CEFR_RANK["native"] == |LEVELS|
    ensures level in CEFR_RANK ==> level in LEVELS || level == "native"
  {
  }

  // ----- fields read from the stored sections -----

  lemma {:induction false} SplitPlain(name: string)
    requires '.' !in name
    ensures Split(name, '.') == [name]
  {
    if name != "" {
      SplitPlain(name[1..]);
      assert [name[0]] + name[1..] == name;
    } else {
      assert name == "" && Split(name, '.') == [""];
    }
  }

  lemma {:induction false} SplitTwo(section: string, field: string)
    requires '.' !in section && '.' !in field
    ensures Split(section + "." + field, '.') == [section, field]
  {
    var path := section + "." + field;
    if section == "" {
      SplitPlain(field);
      assert path[1..] == field && path[0] == '.';
      assert [""] + [field] == [section, field];
    } else {
      SplitTwo(section[1..], field);
      assert path[1..] == section[1..] + "." + field && path[0] == section[0];
      assert [section[0]] + section[1..] == section;
      assert [section[1..], field][1..] == [field];
    }
  }

  /** Null, the empty list and the empty text say nothing. */
  predicate SaysNothing(v: Json) {
    v == JNull || v == JList([]) || v == JStr("")
  }

  lemma EmptySaysNothing(v: Json)
    ensures Empty(v) <==> SaysNothing(v)
  {
  }

  /** What a section of the document states under a name. */
  function StatedIn(profile: Profile, section: string, field: string): Option<Json> {
    if section in profile.document && profile.document[section].JObj? && field in profile.document[section].fields
       && !SaysNothing(profile.document[section].fields[field])
    then Some(profile.document[section].fields[field]) else None
  }

  lemma WalkTwo(profile: Profile, section: string, field: string)
    ensures Walk(JObj(profile.document), [section, field]) == StatedIn(profile, section, field)
  {
    var node := JObj(profile.document);
    assert [section, field][1..] == [field] && [field][1..] == [];
    if section in profile.document {
      var inner := profile.document[section];
      if inner.JObj? && field in inner.fields {
        EmptySaysNothing(inner.fields[field]);
      }
      hide Empty, SaysNothing;
      assert Walk(node, [section, field]) == Walk(inner, [field]);
    }
  }

  /** Fields the registry computes instead of reading them where they are named. */
  const COMPUTED := {"derived.employment_gap_count", "skills.canonical", "certifications.name_canonical",
                     "experience.title_canonical", "education.highest_degree_rank"}

  lemma ResolveIsWalk(text: Text, profile: Profile, path: string)
    requires Registered(path) && LanguageCode(path) == None && path !in COMPUTED
    ensures Resolve(text, profile, path) == Walk(JObj(profile.document), Split(path, '.'))
  {
    hide Walk, Split, LanguageCode;
  }

  /** Every other two-part field is read from its section under its name. */
  lemma SectionField(text: Text, profile: Profile, section: string, field: string)
    requires '.' !in section && '.' !in field
    requires Registered(section + "." + field) && LanguageCode(section + "." + field) == None
    requires section + "." + field !in COMPUTED
    ensures Resolve(text, profile, section + "." + field) == StatedIn(profile, section, field)
  {
    hide *;
    SplitTwo(section, field);
    WalkTwo(profile, section, field);
    ResolveIsWalk(text, profile, section + "." + field);
  }

  /** The degree asked for under education is the derived one, and the number of gaps is counted. */
  lemma ComputedFields(text: Text, profile: Profile)
    ensures Registered("education.highest_degree_rank") && Registered("derived.employment_gap_count")
    ensures Resolve(text, profile, "education.highest_degree_rank")
         == StatedIn(profile, "derived", "highest_degree_rank")
    ensures Resolve(text, profile, "derived.employment_gap_count")
         == if profile.employmentGaps.Some? then Some(JNum(profile.employmentGaps.value as real)) else None
  {
    NoLanguagePath("education.highest_degree_rank");
    NoLanguagePath("derived.employment_gap_count");
    DerivedDegree(profile);
    hide Walk, Split, StatedIn, LanguageCode;
  }

  lemma DerivedDegree(profile: Profile)
    ensures Walk(JObj(profile.document), Split("derived.highest_degree_rank", '.'))
         == StatedIn(profile, "derived", "highest_degree_rank")
  {
    var section, field := "derived", "highest_degree_rank";
    assert section + "." + field == "derived.highest_degree_rank";
    SplitTwo(section, field);
    WalkTwo(profile, section, field);
    hide Walk, Split, StatedIn;
  }
}
