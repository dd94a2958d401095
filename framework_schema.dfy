/**
 * The `framework` configuration tree as the bundle declares it, written down
 * as a table of facts: every node with its kind, its default, its required
 * and cardinality flags, its null/true substitutions, the flags the tree
 * builder records (`canBeUnset`, `performNoDeepMerging`, `useAttributeAsKey`,
 * the singular name given to `fixXmlConfig`) and the before-normalization
 * rules attached to it. Each add*Section method declares its section with
 * paths relative to the section's node, and the table keeps each section
 * under its name, so that a path's first name says which part declares it.
 * The engine that interprets these declarations is not part
 * of this model, except for the meaning of the null/true substitutions
 * (TreatLike).
 */
module FrameworkSchema {
  import opened PhpValues
  import ElementRules

  /** A node's position below the root: child names, ELEMENT standing for any element of a prototype. */
  type Path = seq<string>

  const ELEMENT := "*"

  datatype Kind = Scalar | Boolean | ArrayNode | Prototyped(element: Kind)

  /** The before-normalization closures of the bundle, by what they do. */
  datatype Rule =
    | StripPdoPrefix                 // SessionPrefix.StripPdoPrefix
    | MoveNamespaceUnderAnnotations  // ValidationNamespace.MoveNamespace
    | WrapNonArray                   // ElementRules.WrapNonArray
    | UnwrapField(field: string)     // ElementRules.Unwrap

  datatype Fact =
    | Declared(path: Path, kind: Kind)
    | DefaultValue(path: Path, value: Value)   // defaultValue(), defaultTrue(), defaultNull()
    | IsRequired(path: Path)
    | RequiresAtLeastOneElement(path: Path)
    | CanBeUnset(path: Path)
    | NoDeepMerging(path: Path)
    | TreatNullLike(path: Path, value: Value)
    | TreatTrueLike(path: Path, value: Value)
    | UseAttributeAsKey(path: Path, attribute: string)
    | FixXmlConfig(path: Path, singular: string)
    | BeforeNormalization(path: Path, rule: Rule)

  /** `array('enabled' => true)`, what csrf_protection and esi take null and true for. */
  const ENABLED := Arr([(StrKey("enabled"), Bool(true))])

  /** getConfigTree: the root's own children. */
  function RootFacts(kernelDebug: bool): (facts: set<Fact>) {
    {
      Declared([], ArrayNode),
      Declared(["cache_warmer"], Scalar),
      DefaultValue(["cache_warmer"], Bool(!kernelDebug)),
      Declared(["charset"], Scalar),
      Declared(["document_root"], Scalar),
      Declared(["error_handler"], Scalar),
      Declared(["exception_controller"], Scalar),
      Declared(["ide"], Scalar),
      Declared(["test"], Boolean)
    }
  }

  /** addCsrfProtectionSection. */
  function CsrfProtectionSection(): (facts: set<Fact>) {
    {
      Declared([], ArrayNode),
      CanBeUnset([]),
      TreatNullLike([], ENABLED),
      TreatTrueLike([], ENABLED),
      Declared(["enabled"], Boolean),
      Declared(["field_name"], Scalar),
      Declared(["secret"], Scalar)
    }
  }

  /** addEsiSection. */
  function EsiSection(): (facts: set<Fact>) {
    {
      Declared([], ArrayNode),
      CanBeUnset([]),
      TreatNullLike([], ENABLED),
      TreatTrueLike([], ENABLED),
      Declared(["enabled"], Boolean)
    }
  }

  /** addProfilerSection. */
  function ProfilerSection(): (facts: set<Fact>) {
    {
      Declared([], ArrayNode),
      CanBeUnset([]),
      Declared(["only_exceptions"], Boolean),
      DefaultValue(["only_exceptions"], Bool(false)),
      Declared(["dsn"], Scalar),
      DefaultValue(["dsn"], Str("sqlite:%kernel.cache_dir%/profiler.db")),
      Declared(["username"], Scalar),
      DefaultValue(["username"], Str("")),
      Declared(["password"], Scalar),
      DefaultValue(["password"], Str("")),
      Declared(["lifetime"], Scalar),
      DefaultValue(["lifetime"], Int(86400)),
      Declared(["matcher"], ArrayNode),
      CanBeUnset(["matcher"]),
      NoDeepMerging(["matcher"]),
      Declared(["matcher", "ip"], Scalar),
      Declared(["matcher", "path"], Scalar),
      Declared(["matcher", "service"], Scalar)
    }
  }

  /** addRouterSection. */
  function RouterSection(): (facts: set<Fact>) {
    {
      Declared([], ArrayNode),
      CanBeUnset([]),
      Declared(["cache_warmer"], Scalar),
      Declared(["resource"], Scalar),
      IsRequired(["resource"]),
      Declared(["type"], Scalar)
    }
  }

  /** addSessionSection. */
  function SessionSection(): (facts: set<Fact>) {
    {
      Declared([], ArrayNode),
      CanBeUnset([]),
      BeforeNormalization([], StripPdoPrefix),
      Declared(["auto_start"], Boolean),
      Declared(["class"], Scalar),
      Declared(["default_locale"], Scalar),
      Declared(["storage_id"], Scalar),
      DefaultValue(["storage_id"], Str("native")),
      Declared(["name"], Scalar),
      Declared(["lifetime"], Scalar),
      Declared(["path"], Scalar),
      Declared(["domain"], Scalar),
      Declared(["secure"], Boolean),
      Declared(["httponly"], Boolean),
      Declared(["db_table"], Scalar),
      Declared(["db_id_col"], Scalar),
      Declared(["db_data_col"], Scalar),
      Declared(["db_time_col"], Scalar)
    }
  }

  /** addTemplatingSection. */
  function TemplatingSection(): (facts: set<Fact>) {
    {
      Declared([], ArrayNode),
      CanBeUnset([]),
      Declared(["assets_version"], Scalar),
      FixXmlConfig([], "assets_base_url"),
      Declared(["assets_base_urls"], Prototyped(Scalar)),
      BeforeNormalization(["assets_base_urls"], WrapNonArray),
      BeforeNormalization(["assets_base_urls", ELEMENT], UnwrapField(ElementRules.VALUE_FIELD)),
      Declared(["cache"], Scalar),
      Declared(["cache_warmer"], Scalar),
      FixXmlConfig([], "engine"),
      Declared(["engines"], Prototyped(Scalar)),
      IsRequired(["engines"]),
      RequiresAtLeastOneElement(["engines"]),
      BeforeNormalization(["engines"], WrapNonArray),
      BeforeNormalization(["engines", ELEMENT], UnwrapField(ElementRules.ID_FIELD)),
      FixXmlConfig([], "loader"),
      Declared(["loaders"], Prototyped(Scalar)),
      BeforeNormalization(["loaders"], WrapNonArray),
      FixXmlConfig([], "package"),
      Declared(["packages"], Prototyped(ArrayNode)),
      UseAttributeAsKey(["packages"], "name"),
      Declared(["packages", ELEMENT, "version"], Scalar),
      DefaultValue(["packages", ELEMENT, "version"], Null),
      FixXmlConfig(["packages", ELEMENT], "base_url"),
      Declared(["packages", ELEMENT, "base_urls"], Prototyped(Scalar)),
      BeforeNormalization(["packages", ELEMENT, "base_urls", ELEMENT], UnwrapField(ElementRules.VALUE_FIELD))
    }
  }

  /** addTranslatorSection. */
  function TranslatorSection(): (facts: set<Fact>) {
    {
      Declared([], ArrayNode),
      CanBeUnset([]),
      Declared(["enabled"], Boolean),
      DefaultValue(["enabled"], Bool(true)),
      Declared(["fallback"], Scalar)
    }
  }

  /** addValidationSection. */
  function ValidationSection(): (facts: set<Fact>) {
    {
      Declared([], ArrayNode),
      CanBeUnset([]),
      BeforeNormalization([], MoveNamespaceUnderAnnotations),
      Declared(["enabled"], Boolean),
      Declared(["annotations"], ArrayNode),
      CanBeUnset(["annotations"]),
      TreatNullLike(["annotations"], Arr([])),
      TreatTrueLike(["annotations"], Arr([])),
      FixXmlConfig(["annotations"], "namespace"),
      Declared(["annotations", "namespaces"], Prototyped(Scalar)),
      UseAttributeAsKey(["annotations", "namespaces"], "prefix"),
      BeforeNormalization(["annotations", "namespaces", ELEMENT], UnwrapField(ElementRules.NAMESPACE_FIELD))
    }
  }

  /** The names of the sections the add*Section methods add below the root. */
  const SECTION_NAMES := {"csrf_protection", "esi", "profiler", "router", "session", "templating", "translator", "validation"}

  /** The facts of the section called name, relative to the section's node. */
  function Section(name: string): (facts: set<Fact>) {
    if name == "csrf_protection" then CsrfProtectionSection()
    else if name == "esi" then EsiSection()
    else if name == "profiler" then ProfilerSection()
    else if name == "router" then RouterSection()
    else if name == "session" then SessionSection()
    else if name == "templating" then TemplatingSection()
    else if name == "translator" then TranslatorSection()
    else if name == "validation" then ValidationSection()
    else {}
  }

  /**
   * The whole table: the root's own children, and for each section the facts
   * its add*Section method declares, relative to the section's node.
   */
  datatype Table = Table(root: set<Fact>, sections: map<string, set<Fact>>)

  /** getConfigTree with every add*Section call. */
  function Schema(kernelDebug: bool): (t: Table) {
    Table(RootFacts(kernelDebug), map name | name in SECTION_NAMES :: Section(name))
  }

  /** The part of the table that declares the node at p, and p relative to that part. */
  function Part(t: Table, p: Path): (part: (set<Fact>, Path)) {
    if |p| >= 1 && p[0] in t.sections then (t.sections[p[0]], p[1..]) else (t.root, p)
  }

  /** The table declares f: its part holds f at the path relative to the part. */
  predicate Declares(t: Table, f: Fact) {
    var (facts, q) := Part(t, f.path);
    f.(path := q) in facts
  }

  /** The nodes that declare a substitute for null and for true. */
  const SUBSTITUTED: set<Path> := {["csrf_protection"], ["esi"], ["validation", "annotations"]}

  /** Only the given paths declare null or true substitutes. */
  ghost predicate SubstitutesOnly(t: Table, paths: set<Path>) {
    forall f :: Declares(t, f) && (f.TreatNullLike? || f.TreatTrueLike?) ==> f.path in paths
  }

  /** The default the table declares for p, if any. */
  ghost function DefaultOf(t: Table, p: Path): (r: Option<Value>)
    ensures r.Some? ==> Declares(t, DefaultValue(p, r.value))
    ensures r.None? ==> forall w :: !Declares(t, DefaultValue(p, w))
  {
    var (facts, q) := Part(t, p);
    if exists w :: DefaultValue(q, w) in facts then Some(var w :| DefaultValue(q, w) in facts; w) else None
  }

  /** What the table declares p takes null for, if anything. */
  ghost function NullLikeOf(t: Table, p: Path): (r: Option<Value>)
    ensures r.Some? ==> Declares(t, TreatNullLike(p, r.value))
    ensures r.None? ==> forall w :: !Declares(t, TreatNullLike(p, w))
  {
    var (facts, q) := Part(t, p);
    if exists w :: TreatNullLike(q, w) in facts then Some(var w :| TreatNullLike(q, w) in facts; w) else None
  }

  /** What the table declares p takes true for, if anything. */
  ghost function TrueLikeOf(t: Table, p: Path): (r: Option<Value>)
    ensures r.Some? ==> Declares(t, TreatTrueLike(p, r.value))
    ensures r.None? ==> forall w :: !Declares(t, TreatTrueLike(p, w))
  {
    var (facts, q) := Part(t, p);
    if exists w :: TreatTrueLike(q, w) in facts then Some(var w :| TreatTrueLike(q, w) in facts; w) else None
  }

  /**
   * `treatNullLike` / `treatTrueLike`: a raw null, or a raw true, given for a
   * node is read as the value the node declares for it; nothing else is
   * replaced, and nothing is replaced without a declaration.
   */
  function TreatLike(nullLike: Option<Value>, trueLike: Option<Value>, v: Value): (r: Value)
    ensures v == Null && nullLike.Some? ==> r == nullLike.value
    ensures v == Bool(true) && trueLike.Some? ==> r == trueLike.value
    ensures r != v ==> (v == Null && nullLike == Some(r)) || (v == Bool(true) && trueLike == Some(r))
  {
    if v == Null && nullLike.Some? then nullLike.value
    else if v == Bool(true) && trueLike.Some? then trueLike.value
    else v
  }

  /** The raw value v given for the node at p, after the substitutions the table declares for p. */
  ghost function Substitute(t: Table, p: Path, v: Value): (r: Value)
    ensures r != v ==> (v == Null && Declares(t, TreatNullLike(p, r))) || (v == Bool(true) && Declares(t, TreatTrueLike(p, r)))
  {
    TreatLike(NullLikeOf(t, p), TrueLikeOf(t, p), v)
  }
}

/** What the configuration declares, read off the table, and what its rules do on sample inputs. */
module FrameworkFacts {
  import opened PhpValues
  import opened FrameworkSchema
  import ElementRules

  /** A path below a section is declared by that section, at the path relative to it. */
  lemma InSection(kernelDebug: bool, p: Path, part: set<Fact>)
    requires |p| >= 1 && p[0] in SECTION_NAMES && Section(p[0]) == part
    ensures Part(Schema(kernelDebug), p) == (part, p[1..])
    ensures |p| == 1 ==> Part(Schema(kernelDebug), p) == (part, [])
  {
    if |p| == 1 {
      assert p[1..] == [];
    }
  }

  /** The root declares only its own children: none of its facts is hidden behind a section. */
  lemma RootReachable(kernelDebug: bool)
    ensures forall f :: f in RootFacts(kernelDebug) ==> Declares(Schema(kernelDebug), f)
  {
    forall f | f in RootFacts(kernelDebug)
      ensures Declares(Schema(kernelDebug), f)
    {
      assert f.path == [] || f.path[0] !in SECTION_NAMES;
    }
  }

  /** part declares x as the default of q, and no other default for q. */
  ghost predicate OnlyDefault(part: set<Fact>, q: Path, x: Value) {
    DefaultValue(q, x) in part && forall w :: DefaultValue(q, w) in part ==> w == x
  }

  /** A default that is the only one its section declares for the rest of p is the one default of p. */
  lemma DefaultDeclared(kernelDebug: bool, p: Path, part: set<Fact>, x: Value)
    requires |p| >= 1 && p[0] in SECTION_NAMES && Section(p[0]) == part
    requires OnlyDefault(part, p[1..], x)
    ensures DefaultOf(Schema(kernelDebug), p) == Some(x)
    ensures forall w :: Declares(Schema(kernelDebug), DefaultValue(p, w)) ==> w == x
  {
  }

  lemma NullLikeDeclared(kernelDebug: bool, p: Path, part: set<Fact>, x: Value)
    requires |p| >= 1 && p[0] in SECTION_NAMES && Section(p[0]) == part
    requires TreatNullLike(p[1..], x) in part
    requires forall w :: TreatNullLike(p[1..], w) in part ==> w == x
    ensures NullLikeOf(Schema(kernelDebug), p) == Some(x)
    ensures forall w :: Declares(Schema(kernelDebug), TreatNullLike(p, w)) ==> w == x
  {
  }

  lemma TrueLikeDeclared(kernelDebug: bool, p: Path, part: set<Fact>, x: Value)
    requires |p| >= 1 && p[0] in SECTION_NAMES && Section(p[0]) == part
    requires TreatTrueLike(p[1..], x) in part
    requires forall w :: TreatTrueLike(p[1..], w) in part ==> w == x
    ensures TrueLikeOf(Schema(kernelDebug), p) == Some(x)
    ensures forall w :: Declares(Schema(kernelDebug), TreatTrueLike(p, w)) ==> w == x
  {
  }

  /** The paths, relative to the section called name, that declare substitutes. */
  function LocalSubstituted(name: string): (paths: set<Path>)
    ensures forall q :: q in paths ==> [name] + q in SUBSTITUTED
  {
    if name == "csrf_protection" || name == "esi" then assert [name] + [] == [name]; {[]}
    else if name == "validation" then assert [name] + ["annotations"] == [name, "annotations"]; {["annotations"]}
    else {}
  }

  /** In part, only the paths in local declare null or true substitutes. */
  predicate SubstitutesOnlyAt(part: set<Fact>, local: set<Path>) {
    forall g :: g in part && (g.TreatNullLike? || g.TreatTrueLike?) ==> g.path in local
  }

  lemma CsrfProtectionSubstitutes()
    ensures SubstitutesOnlyAt(CsrfProtectionSection(), {[]})
  {
  }

  lemma EsiSubstitutes()
    ensures SubstitutesOnlyAt(EsiSection(), {[]})
  {
  }

  lemma ProfilerSubstitutes()
    ensures forall g :: g in ProfilerSection() ==> !g.TreatNullLike? && !g.TreatTrueLike?
  {
  }

  lemma RouterSubstitutes()
    ensures forall g :: g in RouterSection() ==> !g.TreatNullLike? && !g.TreatTrueLike?
  {
  }

  lemma SessionSubstitutes()
    ensures forall g :: g in SessionSection() ==> !g.TreatNullLike? && !g.TreatTrueLike?
  {
  }

  lemma TemplatingSubstitutes()
    ensures forall g :: g in TemplatingSection() ==> !g.TreatNullLike? && !g.TreatTrueLike?
  {
  }

  lemma TranslatorSubstitutes()
    ensures forall g :: g in TranslatorSection() ==> !g.TreatNullLike? && !g.TreatTrueLike?
  {
  }

  lemma ValidationSubstitutes()
    ensures SubstitutesOnlyAt(ValidationSection(), {["annotations"]})
  {
  }

  /** Within its section, only csrf_protection, esi and validation.annotations declare substitutes. */
  lemma SectionSubstitutes(name: string)
    requires name in SECTION_NAMES
    ensures SubstitutesOnlyAt(Section(name), LocalSubstituted(name))
  {
    if name == "csrf_protection" {
      assert Section(name) == CsrfProtectionSection() && LocalSubstituted(name) == {[]};
      CsrfProtectionSubstitutes();
    } else if name == "esi" {
      assert Section(name) == EsiSection() && LocalSubstituted(name) == {[]};
      EsiSubstitutes();
    } else if name == "profiler" {
      assert Section(name) == ProfilerSection() && LocalSubstituted(name) == {};
      ProfilerSubstitutes();
    } else if name == "router" {
      assert Section(name) == RouterSection() && LocalSubstituted(name) == {};
      RouterSubstitutes();
    } else if name == "session" {
      assert Section(name) == SessionSection() && LocalSubstituted(name) == {};
      SessionSubstitutes();
    } else if name == "templating" {
      assert Section(name) == TemplatingSection() && LocalSubstituted(name) == {};
      TemplatingSubstitutes();
    } else if name == "translator" {
      assert Section(name) == TranslatorSection() && LocalSubstituted(name) == {};
      TranslatorSubstitutes();
    } else {
      assert Section(name) == ValidationSection() && LocalSubstituted(name) == {["annotations"]};
      ValidationSubstitutes();
    }
  }

  /** A substitute declared below a section sits at one of that section's substituting paths. */
  lemma SectionDeclaresSubstitute(kernelDebug: bool, f: Fact)
    requires Declares(Schema(kernelDebug), f) && (f.TreatNullLike? || f.TreatTrueLike?)
    requires |f.path| >= 1 && f.path[0] in SECTION_NAMES
    ensures f.path in SUBSTITUTED
  {
    var name, q := f.path[0], f.path[1..];
    InSection(kernelDebug, f.path, Section(name));
    if f.TreatNullLike? {
      assert TreatNullLike(q, f.value) in Section(name);
    } else {
      assert TreatTrueLike(q, f.value) in Section(name);
    }
    SectionSubstitutes(name);
    assert f.path == [name] + q;
  }

  /** A substitute the table declares sits at one of the three substituting nodes: the root declares none. */
  lemma DeclaredSubstitute(kernelDebug: bool, f: Fact)
    requires Declares(Schema(kernelDebug), f) && (f.TreatNullLike? || f.TreatTrueLike?)
    ensures f.path in SUBSTITUTED
  {
    if |f.path| >= 1 && f.path[0] in SECTION_NAMES {
      SectionDeclaresSubstitute(kernelDebug, f);
    }
  }

  /** Only csrf_protection, esi and validation.annotations declare substitutes for null and true. */
  lemma SchemaSubstitutesOnly(kernelDebug: bool)
    ensures SubstitutesOnly(Schema(kernelDebug), SUBSTITUTED)
  {
    forall f | Declares(Schema(kernelDebug), f) && (f.TreatNullLike? || f.TreatTrueLike?)
      ensures f.path in SUBSTITUTED
    {
      DeclaredSubstitute(kernelDebug, f);
    }
  }

  /** The root `cache_warmer` defaults to on exactly when the kernel is not in debug mode. */
  lemma RootDefault(kernelDebug: bool)
    ensures DefaultOf(Schema(kernelDebug), ["cache_warmer"]) == Some(Bool(!kernelDebug))
  {
    assert Part(Schema(kernelDebug), ["cache_warmer"]) == (RootFacts(kernelDebug), ["cache_warmer"]);
  }

  /** The profiler section declares one default for each of its scalar settings. */
  lemma ProfilerSectionDefaults()
    ensures OnlyDefault(ProfilerSection(), ["only_exceptions"], Bool(false))
    ensures OnlyDefault(ProfilerSection(), ["dsn"], Str("sqlite:%kernel.cache_dir%/profiler.db"))
    ensures OnlyDefault(ProfilerSection(), ["username"], Str(""))
    ensures OnlyDefault(ProfilerSection(), ["password"], Str(""))
    ensures OnlyDefault(ProfilerSection(), ["lifetime"], Int(86400))
  {
  }

  lemma ProfilerDefaults(kernelDebug: bool)
    ensures DefaultOf(Schema(kernelDebug), ["profiler", "only_exceptions"]) == Some(Bool(false))
    ensures DefaultOf(Schema(kernelDebug), ["profiler", "dsn"]) == Some(Str("sqlite:%kernel.cache_dir%/profiler.db"))
    ensures DefaultOf(Schema(kernelDebug), ["profiler", "username"]) == Some(Str(""))
    ensures DefaultOf(Schema(kernelDebug), ["profiler", "password"]) == Some(Str(""))
    ensures DefaultOf(Schema(kernelDebug), ["profiler", "lifetime"]) == Some(Int(86400))
  {
    ProfilerSectionDefaults();
    DefaultDeclared(kernelDebug, ["profiler", "only_exceptions"], ProfilerSection(), Bool(false));
    DefaultDeclared(kernelDebug, ["profiler", "dsn"], ProfilerSection(), Str("sqlite:%kernel.cache_dir%/profiler.db"));
    DefaultDeclared(kernelDebug, ["profiler", "username"], ProfilerSection(), Str(""));
    DefaultDeclared(kernelDebug, ["profiler", "password"], ProfilerSection(), Str(""));
    DefaultDeclared(kernelDebug, ["profiler", "lifetime"], ProfilerSection(), Int(86400));
  }

  lemma SessionDefault(kernelDebug: bool)
    ensures DefaultOf(Schema(kernelDebug), ["session", "storage_id"]) == Some(Str("native"))
  {
    DefaultDeclared(kernelDebug, ["session", "storage_id"], SessionSection(), Str("native"));
  }

  lemma PackageVersionDefault(kernelDebug: bool)
    ensures DefaultOf(Schema(kernelDebug), ["templating", "packages", ELEMENT, "version"]) == Some(Null)
  {
    DefaultDeclared(kernelDebug, ["templating", "packages", ELEMENT, "version"], TemplatingSection(), Null);
  }

  lemma TranslatorDefault(kernelDebug: bool)
    ensures DefaultOf(Schema(kernelDebug), ["translator", "enabled"]) == Some(Bool(true))
  {
    DefaultDeclared(kernelDebug, ["translator", "enabled"], TranslatorSection(), Bool(true));
  }

  /** The debug flag changes the declared `cache_warmer` default and nothing else. */
  lemma DebugFlagOnlyChangesCacheWarmer(f: Fact)
    requires f != DefaultValue(["cache_warmer"], Bool(false)) && f != DefaultValue(["cache_warmer"], Bool(true))
    ensures Declares(Schema(true), f) <==> Declares(Schema(false), f)
  {
    assert Schema(true).sections == Schema(false).sections;
  }

  lemma RouterResourceRequired(kernelDebug: bool)
    ensures Declares(Schema(kernelDebug), IsRequired(["router", "resource"]))
  {
    InSection(kernelDebug, ["router", "resource"], RouterSection());
  }

  /** `templating.engines` must be given and must name at least one engine. */
  lemma EnginesRequired(kernelDebug: bool)
    ensures Declares(Schema(kernelDebug), IsRequired(["templating", "engines"]))
    ensures Declares(Schema(kernelDebug), RequiresAtLeastOneElement(["templating", "engines"]))
  {
    InSection(kernelDebug, ["templating", "engines"], TemplatingSection());
  }

  /** `csrf_protection` given as null or true means `{enabled: true}`; an explicit array is taken as it is. */
  lemma CsrfProtectionSubstitution(kernelDebug: bool, given: Entries)
    ensures Substitute(Schema(kernelDebug), ["csrf_protection"], Null) == ENABLED
    ensures Substitute(Schema(kernelDebug), ["csrf_protection"], Bool(true)) == ENABLED
    ensures Substitute(Schema(kernelDebug), ["csrf_protection"], Arr(given)) == Arr(given)
  {
    assert ["csrf_protection"][1..] == [];
    NullLikeDeclared(kernelDebug, ["csrf_protection"], CsrfProtectionSection(), ENABLED);
    TrueLikeDeclared(kernelDebug, ["csrf_protection"], CsrfProtectionSection(), ENABLED);
  }

  /** `esi` given as null or true means `{enabled: true}`. */
  lemma EsiSubstitution(kernelDebug: bool)
    ensures Substitute(Schema(kernelDebug), ["esi"], Null) == ENABLED
    ensures Substitute(Schema(kernelDebug), ["esi"], Bool(true)) == ENABLED
  {
    assert ["esi"][1..] == [];
    NullLikeDeclared(kernelDebug, ["esi"], EsiSection(), ENABLED);
    TrueLikeDeclared(kernelDebug, ["esi"], EsiSection(), ENABLED);
  }

  /** `validation.annotations` given as null or true means the empty array. */
  lemma AnnotationsSubstitution(kernelDebug: bool)
    ensures Substitute(Schema(kernelDebug), ["validation", "annotations"], Null) == Arr([])
    ensures Substitute(Schema(kernelDebug), ["validation", "annotations"], Bool(true)) == Arr([])
  {
    NullLikeDeclared(kernelDebug, ["validation", "annotations"], ValidationSection(), Arr([]));
    TrueLikeDeclared(kernelDebug, ["validation", "annotations"], ValidationSection(), Arr([]));
  }

  /** Every other node takes null and true as they are: it declares no substitute. */
  lemma UndeclaredSubstitutionKeepsValue(kernelDebug: bool, p: Path, v: Value)
    requires p !in SUBSTITUTED
    ensures Substitute(Schema(kernelDebug), p, v) == v
  {
    SchemaSubstitutesOnly(kernelDebug);
  }

  lemma SessionRule(kernelDebug: bool)
    ensures Declares(Schema(kernelDebug), BeforeNormalization(["session"], StripPdoPrefix))
  {
    InSection(kernelDebug, ["session"], SessionSection());
  }

  /** Lists given as one scalar are wrapped; list elements given in attribute form are unwrapped. */
  lemma TemplatingRules(kernelDebug: bool)
    ensures Declares(Schema(kernelDebug), BeforeNormalization(["templating", "assets_base_urls"], WrapNonArray))
    ensures Declares(Schema(kernelDebug), BeforeNormalization(["templating", "engines"], WrapNonArray))
    ensures Declares(Schema(kernelDebug), BeforeNormalization(["templating", "loaders"], WrapNonArray))
    ensures Declares(Schema(kernelDebug), BeforeNormalization(["templating", "assets_base_urls", ELEMENT], UnwrapField("value")))
    ensures Declares(Schema(kernelDebug), BeforeNormalization(["templating", "engines", ELEMENT], UnwrapField("id")))
    ensures Declares(Schema(kernelDebug), BeforeNormalization(["templating", "packages", ELEMENT, "base_urls", ELEMENT], UnwrapField("value")))
  {
    InSection(kernelDebug, ["templating", "assets_base_urls"], TemplatingSection());
    InSection(kernelDebug, ["templating", "engines"], TemplatingSection());
    InSection(kernelDebug, ["templating", "loaders"], TemplatingSection());
    InSection(kernelDebug, ["templating", "assets_base_urls", ELEMENT], TemplatingSection());
    InSection(kernelDebug, ["templating", "engines", ELEMENT], TemplatingSection());
    InSection(kernelDebug, ["templating", "packages", ELEMENT, "base_urls", ELEMENT], TemplatingSection());
  }

  lemma ValidationRules(kernelDebug: bool)
    ensures Declares(Schema(kernelDebug), BeforeNormalization(["validation"], MoveNamespaceUnderAnnotations))
    ensures Declares(Schema(kernelDebug), BeforeNormalization(["validation", "annotations", "namespaces", ELEMENT], UnwrapField("namespace")))
  {
    InSection(kernelDebug, ["validation"], ValidationSection());
    InSection(kernelDebug, ["validation", "annotations", "namespaces", ELEMENT], ValidationSection());
  }

  /**
   * The engines rules on `engines: twig`, `engines: [twig, php]`, `engines: []`
   * and `<engine id="twig"/>`: the scalar becomes the list `["twig"]`, the
   * lists pass through, and the attribute form becomes `"twig"`.
   */
  lemma EngineListForms()
    ensures ElementRules.WrapNonArray(Str("twig")) == Arr([(IntKey(0), Str("twig"))])
    ensures ElementRules.WrapNonArray(Arr([(IntKey(0), Str("twig")), (IntKey(1), Str("php"))]))
         == Arr([(IntKey(0), Str("twig")), (IntKey(1), Str("php"))])
    ensures ElementRules.WrapNonArray(Arr([])) == Arr([])
    ensures ElementRules.Unwrap(Arr([(StrKey("id"), Str("twig"))]), ElementRules.ID_FIELD) == Str("twig")
  {
    ElementRules.EngineForms("twig");
  }
}
