/** The predicate language over stored profiles (domain/predicates.py): three-valued, with a registry. */
module Predicates {
  import opened Wrappers

  /** Stored JSON values. Booleans are the numbers 0 and 1, which is how the comparisons treat them. */
  datatype Json = JNull | JNum(n: real) | JStr(s: string) | JList(items: seq<Json>) | JObj(fields: map<string, Json>)

  datatype Language = Language(code: string, cefr: Option<string>)

  /**
   A stored profile. `document` holds the sections that are walked by name; the record lists keep
   only what the registry reads of each record.
   */
  datatype Profile = Profile(
    document: map<string, Json>,
    languages: seq<Language>,
    employmentGaps: Option<nat>,
    skills: seq<Option<string>>,
    certifications: seq<Option<string>>,
    titles: seq<Option<string>>)

  /** The text functions of the host language: `float(s)`, `s.strip().lower()` and `s.lower()`. */
  datatype Text = Text(parse: string -> Option<real>, fold: string -> string, lower: string -> string)

  /** The operators of the language; anything else is kept by name and refused. */
  datatype Op = Equal | NotEqual | Greater | AtLeast | Less | AtMost | In | NotIn | Contains | Exists
              | Unsupported(name: string)
  {
    predicate Ordering() {
      Greater? || AtLeast? || Less? || AtMost?
    }
  }

  datatype Tri = Fail | Unknown | Pass

  datatype Predicate =
    | All(all: seq<Predicate>)
    | Any(any: seq<Predicate>)
    | Not(negated: Predicate)
    | Leaf(field: string, op: Op, value: Json)

  /** What goes wrong with a predicate that bypassed validation. */
  datatype PredicateError = Malformed | NotInRegistry(path: string)

  type Outcome = Result<Tri, PredicateError>

  const REGISTRY_PATHS := {
    "derived.total_experience_months", "derived.job_count", "derived.avg_tenure_months",
    "derived.job_changes_last_5y", "derived.max_employment_gap_months", "derived.employment_gap_count",
    "derived.highest_degree_rank", "derived.current_employment_status", "derived.seniority_estimate",
    "education.highest_degree_rank", "location.city_canonical", "location.country", "industries",
    "tools_technologies", "skills.canonical", "certifications.name_canonical", "experience.title_canonical"}

  const CEFR_RANK: map<string, int> :=
    map["A1" := 1, "A2" := 2, "B1" := 3, "B2" := 4, "C1" := 5, "C2" := 6, "native" := 6]

  // ----- field resolution -----

  predicate LowerCase(s: string) {
    forall i :: 0 <= i < |s| ==> 'a' <= s[i] <= 'z'
  }

  const LANGUAGE_PREFIX := "languages['"
  const LANGUAGE_SUFFIX := "'].cefr_rank"

  /** The two- or three-letter code of a language path; the pattern's `$` tolerates a final newline. */
  function LanguageCode(path: string): Option<string> {
    if |path| < |LANGUAGE_PREFIX| + 3 then None else
    var two := path[|LANGUAGE_PREFIX|..|LANGUAGE_PREFIX| + 2];
    var three := path[|LANGUAGE_PREFIX|..|LANGUAGE_PREFIX| + 3];
    if LowerCase(two) && LanguagePath(path, two) then Some(two)
    else if LowerCase(three) && LanguagePath(path, three) then Some(three)
    else None
  }

  predicate LanguagePath(path: string, code: string) {
    var exact := LANGUAGE_PREFIX + code + LANGUAGE_SUFFIX;
    path == exact || path == exact + "\n"
  }

  /** The first entry of a language decides, even when it states no usable level. */
  function LanguageRank(text: Text, languages: seq<Language>, code: string): Option<Json> {
    if languages == [] then None
    else if text.lower(languages[0].code) == code then
      match languages[0].cefr
      case Some(level) => if level in CEFR_RANK then Some(JNum(CEFR_RANK[level] as real)) else None
      case None => None
    else LanguageRank(text, languages[1..], code)
  }

  function Stated(names: seq<Option<string>>): seq<Json> {
    if names == [] then []
    else if names[0].Some? && names[0].value != "" then [JStr(names[0].value)] + Stated(names[1..])
    else Stated(names[1..])
  }

  function StatedList(names: seq<Option<string>>): Option<Json> {
    if Stated(names) == [] then None else Some(JList(Stated(names)))
  }

  function Split(path: string, separator: char): (parts: seq<string>)
    ensures parts != []
  {
    if path == "" then [""]
    else
      var rest := Split(path[1..], separator);
      if path[0] == separator then [""] + rest else [[path[0]] + rest[0]] + rest[1..]
  }

  predicate Empty(v: Json) {
    v == JNull || v == JList([]) || v == JStr("")
  }

  /** Walk down nested objects; what is empty at the end counts as not stated. */
  function Walk(node: Json, parts: seq<string>): Option<Json> {
    if parts == [] then (if Empty(node) then None else Some(node))
    else if node.JObj? && parts[0] in node.fields then Walk(node.fields[parts[0]], parts[1..])
    else None
  }

  predicate Registered(path: string) {
    LanguageCode(path).Some? || path in REGISTRY_PATHS
  }

  function Resolve(text: Text, profile: Profile, path: string): Option<Json>
    requires Registered(path)
  {
    var code := LanguageCode(path);
    if code.Some? then LanguageRank(text, profile.languages, code.value)
    else if path == "derived.employment_gap_count" then
      (match profile.employmentGaps case Some(count) => Some(JNum(count as real)) case None => None)
    else if path == "skills.canonical" then StatedList(profile.skills)
    else if path == "certifications.name_canonical" then StatedList(profile.certifications)
    else if path == "experience.title_canonical" then StatedList(profile.titles)
    else Walk(JObj(profile.document), Split(Canonical(path), '.'))
  }

  function Canonical(path: string): string {
    if path == "education.highest_degree_rank" then "derived.highest_degree_rank" else path
  }

  // ----- comparison -----

  function Norm(text: Text, v: Json): Json {
    if v.JStr? then JStr(text.fold(v.s)) else v
  }

  predicate Hashable(v: Json) {
    !v.JList? && !v.JObj?
  }

  predicate AnyUnhashable(items: seq<Json>) {
    exists i :: 0 <= i < |items| && !Hashable(items[i])
  }

  function AsNumber(text: Text, v: Json): Option<real> {
    match v
    case JNum(n) => Some(n)
    case JStr(s) => text.parse(s)
    case _ => None
  }

  function Characters(s: string): seq<Json> {
    if s == "" then [] else [JStr([s[0]])] + Characters(s[1..])
  }

  predicate Holds(op: Op, value: real, target: real)
    requires op.Ordering()
  {
    match op
    case Greater => value > target
    case AtLeast => value >= target
    case Less => value < target
    case AtMost => value <= target
  }

  function Truth(b: bool): Tri {
    if b then Pass else Fail
  }

  function Opposite(t: Tri): Tri {
    match t
    case Pass => Fail
    case Fail => Pass
    case Unknown => Unknown
  }

  /** The elements a membership test iterates over; a string yields its characters. */
  function Iterated(target: Json): Option<seq<Json>> {
    match target
    case JList(items) => Some(items)
    case JStr(s) => Some(Characters(s))
    case _ => None
  }

  predicate KeyMember(text: Text, value: Json, fields: map<string, Json>) {
    exists k :: k in fields && JStr(text.fold(k)) == Norm(text, value)
  }

  predicate Member(text: Text, value: Json, items: seq<Json>) {
    exists i :: 0 <= i < |items| && Norm(text, items[i]) == Norm(text, value)
  }

  /** Membership of a value in a collection of normalised elements; anything unhashable is unknown. */
  function InCollection(text: Text, value: Json, target: Json): Tri {
    match Iterated(target)
    case None =>
      if target.JObj? && Hashable(value) then Truth(KeyMember(text, value, target.fields)) else Unknown
    case Some(items) =>
      if !Hashable(value) || AnyUnhashable(items) then Unknown
      else Truth(Member(text, value, items))
  }

  /** Needles are tried in order: a hit stops the search before a later unhashable needle. */
  function AnyNeedle(text: Text, needles: seq<Json>, hay: seq<Json>): Tri {
    if needles == [] then Fail
    else if !Hashable(needles[0]) then Unknown
    else if Member(text, needles[0], hay) then Pass
    else AnyNeedle(text, needles[1..], hay)
  }

  function ContainsAny(text: Text, value: Json, target: Json): Tri {
    var hay := if value.JList? then value.items else [value];
    var needles := if target.JList? then target.items else [target];
    if AnyUnhashable(hay) then Unknown
    else AnyNeedle(text, needles, hay)
  }

  function Ordered(text: Text, value: Json, op: Op, target: Json): Tri
    requires op.Ordering()
  {
    match (AsNumber(text, value), AsNumber(text, target))
    case (Some(v), Some(t)) => Truth(Holds(op, v, t))
    case _ => Unknown
  }

  function Compare(text: Text, value: Json, op: Op, target: Json): Tri
    requires !op.Unsupported?
  {
    match op
    case Exists => Pass
    case Equal => Truth(Norm(text, value) == Norm(text, target))
    case NotEqual => Truth(Norm(text, value) != Norm(text, target))
    case In => InCollection(text, value, target)
    case NotIn => Opposite(InCollection(text, value, target))
    case Contains => ContainsAny(text, value, target)
    case Greater | AtLeast | Less | AtMost => Ordered(text, value, op, target)
  }

  // ----- evaluation -----

  function Conjunction(results: seq<Tri>): Tri {
    if Fail in results then Fail else if Unknown in results then Unknown else Pass
  }

  function Disjunction(results: seq<Tri>): Tri {
    if Pass in results then Pass else if Unknown in results then Unknown else Fail
  }

  function EvaluateLeaf(text: Text, field: string, op: Op, value: Json, profile: Profile): Outcome {
    if field == "" || op.Unsupported? then Err(Malformed)
    else if !Registered(field) then Err(NotInRegistry(field))
    else
      match Resolve(text, profile, field)
      case None => Ok(if op.Exists? then Fail else Unknown)
      case Some(found) => Ok(Compare(text, found, op, value))
  }

  function Evaluate(text: Text, rule: Predicate, profile: Profile): Outcome
    decreases rule, 1
  {
    match rule
    case All(ps) =>
      (match EvaluateEach(text, ps, profile)
       case Ok(results) => Ok(Conjunction(results))
       case Err(e) => Err(e))
    case Any(ps) =>
      (match EvaluateEach(text, ps, profile)
       case Ok(results) => Ok(Disjunction(results))
       case Err(e) => Err(e))
    case Not(p) =>
      (match Evaluate(text, p, profile)
       case Ok(t) => Ok(Opposite(t))
       case Err(e) => Err(e))
    case Leaf(field, op, value) => EvaluateLeaf(text, field, op, value, profile)
  }

  /** Every part is evaluated, decided or not, so an error anywhere is an error of the whole. */
  function EvaluateEach(text: Text, ps: seq<Predicate>, profile: Profile): Result<seq<Tri>, PredicateError>
    decreases ps, 0
  {
    if ps == [] then Ok([])
    else
      match Evaluate(text, ps[0], profile)
      case Err(e) => Err(e)
      case Ok(t) =>
        match EvaluateEach(text, ps[1..], profile)
        case Err(e) => Err(e)
        case Ok(rest) => Ok([t] + rest)
  }

  // ----- relaxation -----

  function Lowered(threshold: real, tolerance: real): real {
    threshold * (1.0 - tolerance)
  }

  function Raised(threshold: real, tolerance: real): real {
    threshold * (1.0 + tolerance)
  }

  function RelaxLeaf(leaf: Predicate, tolerance: real): Predicate
    requires leaf.Leaf?
  {
    if (leaf.op.Greater? || leaf.op.AtLeast?) && leaf.value.JNum? then
      leaf.(value := JNum(Lowered(leaf.value.n, tolerance)))
    else if (leaf.op.Less? || leaf.op.AtMost?) && leaf.value.JNum? then
      leaf.(value := JNum(Raised(leaf.value.n, tolerance)))
    else leaf
  }

  /** Numeric thresholds give way by the tolerance; negations are left alone. */
  function Relax(p: Predicate, tolerance: real): (r: Predicate)
    decreases p, 1
  {
    match p
    case All(ps) => All(RelaxEach(ps, tolerance))
    case Any(ps) => Any(RelaxEach(ps, tolerance))
    case Not(_) => p
    case Leaf(_, _, _) => RelaxLeaf(p, tolerance)
  }

  function RelaxEach(ps: seq<Predicate>, tolerance: real): (rs: seq<Predicate>)
    decreases ps, 0
  {
    if ps == [] then [] else [Relax(ps[0], tolerance)] + RelaxEach(ps[1..], tolerance)
  }

  /** The strict result, and whether a strict failure would pass within the tolerance. */
  function EvaluateWithBorderline(text: Text, p: Predicate, profile: Profile, tolerance: Option<real>)
    : Result<(Tri, bool), PredicateError>
  {
    match Evaluate(text, p, profile)
    case Err(e) => Err(e)
    case Ok(strict) =>
      if strict != Fail || tolerance == None || tolerance == Some(0.0) then Ok((strict, false))
      else
        match Evaluate(text, Relax(p, tolerance.value), profile)
        case Err(e) => Err(e)
        case Ok(relaxed) => Ok((strict, relaxed == Pass))
  }

  /** The registry walk as the program does it: one step per path part. */
  method ResolveByWalking(profile: Profile, path: string) returns (found: Option<Json>)
    ensures found == Walk(JObj(profile.document), Split(path, '.'))
  {
    var parts := Split(path, '.');
    var node := JObj(profile.document);
    for i := 0 to |parts|
      invariant Walk(node, parts[i..]) == Walk(JObj(profile.document), parts)
    {
      if !node.JObj? || parts[i] !in node.fields {
        return None;
      }
      assert parts[i..][1..] == parts[i + 1..];
      node := node.fields[parts[i]];
    }
    found := if Empty(node) then None else Some(node);
  }
}
