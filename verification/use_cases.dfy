/** Use-case resolution and the grouped, searchable listing
    (src/lib/use-cases.ts). */
module UseCaseLookup {
  import opened Js
  import opened Text
  import opened UseCaseTypes
  import opened UseCaseTable

  /** `normalizeLegacyKey`: trim, lower-case, then `_` and space become `-`;
      character by character over the trimmed key. */
  function NormalizeLegacyKey(v: string): (r: string)
    ensures |r| <= |v|
    ensures forall i :: 0 <= i < |r| ==> r[i] != '_' && r[i] != ' ' && !IsUpperAscii(r[i])
    ensures |r| == |Trim(v)|
    ensures forall i :: 0 <= i < |r| ==>
      r[i] == if Trim(v)[i] == '_' || Trim(v)[i] == ' ' then '-' else LowerChar(Trim(v)[i])
  {
    ReplaceChar(ReplaceChar(Lower(Trim(v)), '_', '-'), ' ', '-')
  }

  /** A normalised key has no white space at either end. */
  lemma NormalizedKeyTrimmed(v: string)
    ensures var r := NormalizeLegacyKey(v); |r| > 0 ==> !IsJsWhitespace(r[0]) && !IsJsWhitespace(r[|r| - 1])
  {
    var t := Trim(v);
    var r := NormalizeLegacyKey(v);
    if |r| > 0 {
      assert r[0] == '-' || r[0] == LowerChar(t[0]);
      assert r[|r| - 1] == '-' || r[|r| - 1] == LowerChar(t[|t| - 1]);
    }
  }

  /** Replacing a character that does not occur changes nothing. */
  lemma ReplaceAbsent(s: string, from: char, to: char)
    requires forall i :: 0 <= i < |s| ==> s[i] != from
    ensures ReplaceChar(s, from, to) == s
  {
    assert forall i :: 0 <= i < |s| ==> ReplaceChar(s, from, to)[i] == s[i];
  }

  /** `trim` leaves a string without white space at its ends alone. */
  lemma TrimUnchanged(s: string)
    requires |s| > 0 ==> !IsJsWhitespace(s[0]) && !IsJsWhitespace(s[|s| - 1])
    ensures Trim(s) == s
  {
    if |s| > 0 {
      assert TrimStart(s) == s;
      assert TrimEnd(s) == s;
    }
  }

  /** A key that is already trimmed, lower-case and free of `_` and spaces
      is its own normal form. */
  lemma NormalizeLegacyKeyFixed(k: string)
    requires |k| > 0 ==> !IsJsWhitespace(k[0]) && !IsJsWhitespace(k[|k| - 1])
    requires forall i :: 0 <= i < |k| ==> k[i] != '_' && k[i] != ' ' && !IsUpperAscii(k[i])
    ensures NormalizeLegacyKey(k) == k
  {
    TrimUnchanged(k);
    LowerUnchanged(k);
    ReplaceAbsent(k, '_', '-');
    ReplaceAbsent(k, ' ', '-');
  }

  /** Normalising a normalised key changes nothing. */
  lemma NormalizeLegacyKeyIdempotent(v: string)
    ensures NormalizeLegacyKey(NormalizeLegacyKey(v)) == NormalizeLegacyKey(v)
  {
    NormalizedKeyTrimmed(v);
    NormalizeLegacyKeyFixed(NormalizeLegacyKey(v));
  }

  /** `legacyMap`: the old free-text use-case labels. */
  const LegacyMap: map<string, string> := map[
    "sportswear" := "sportswear",
    "denim" := "denim",
    "luxury" := "luxury-fashion",
    "interior" := "upholstery",
    "cycling" := "cycling-apparel",
    "outdoor" := "outdoor-technical",
    "running" := "running-apparel",
    "knitwear" := "knitwear",
    "workwear" := "workwear",
    "circular" := "circular-design"]

  /** `idAliasMap`: retired profile ids and their successors. */
  const IdAliasMap: map<string, string> := map[
    "denim-dailywear" := "denim",
    "luxury-soft-touch" := "luxury-fashion",
    "upholstery-interior" := "upholstery",
    "workwear-durability" := "workwear",
    "outdoor-technical-shell" := "outdoor-technical",
    "circular-min-microplastic" := "circular-design",
    "cost-optimized-basics" := "fast-fashion"]

  /** Every target of both tables is a registered profile id. */
  lemma TableTargetsRegistered()
    ensures forall k | k in LegacyMap :: IsRegistered(LegacyMap[k])
    ensures forall k | k in IdAliasMap :: IsRegistered(IdAliasMap[k])
  {}

  /** The names every plain object inherits from `Object.prototype`. */
  const ObjectPrototypeNames: set<string> := {
    "constructor", "__proto__", "hasOwnProperty", "isPrototypeOf",
    "propertyIsEnumerable", "toString", "toLocaleString", "valueOf",
    "__defineGetter__", "__defineSetter__", "__lookupGetter__", "__lookupSetter__" }

  /** What `obj[key]` yields on an object literal: its own entry, a member
      inherited from `Object.prototype` (a function or object, never
      nullish), or `undefined`. */
  datatype Property = Own(value: string) | Inherited(name: string) | Missing

  function Read(table: map<string, string>, key: string): (r: Property)
    ensures r.Own? <==> key in table
    ensures r.Inherited? <==> key !in table && key in ObjectPrototypeNames
  {
    if key in table then Own(table[key])
    else if key in ObjectPrototypeNames then Inherited(key)
    else Missing
  }

  /** The value `mapLegacyUseCaseId` returns: a string, or the inherited
      member it let through. */
  datatype IdValue = Text(s: string) | ObjectMember(name: string)

  /** `mapLegacyUseCaseId` as written: `legacyMap[key] ?? DEFAULT`. An
      inherited member is not nullish, so it is returned as is. */
  function MapLegacyAsWritten(raw: Option<string>): (r: IdValue)
  {
    if raw.None? || raw.value == "" then Text(DefaultUseCaseId)
    else
      match Read(LegacyMap, NormalizeLegacyKey(raw.value))
      case Own(v) => Text(v)
      case Inherited(n) => ObjectMember(n)
      case Missing => Text(DefaultUseCaseId)
  }

  /** A name holding `_` or an upper-case ASCII letter. */
  predicate NotNormalized(k: string)
  {
    exists i :: 0 <= i < |k| && (k[i] == '_' || IsUpperAscii(k[i]))
  }

  /** Every inherited name other than "constructor" holds `_` or an
      upper-case letter. */
  lemma PrototypeNamesShape()
    ensures forall k | k in ObjectPrototypeNames && k != "constructor" :: NotNormalized(k)
  {
    assert "__proto__"[0] == '_';
    assert "hasOwnProperty"[3] == 'O';
    assert "isPrototypeOf"[2] == 'P';
    assert "propertyIsEnumerable"[8] == 'I';
    assert "toString"[2] == 'S';
    assert "toLocaleString"[2] == 'L';
    assert "valueOf"[5] == 'O';
    assert "__defineGetter__"[0] == '_';
    assert "__defineSetter__"[0] == '_';
    assert "__lookupGetter__"[0] == '_';
    assert "__lookupSetter__"[0] == '_';
  }

  /** The one inherited name a normalised key can hit is "constructor":
      normalisation removes `_` and upper-case letters. */
  lemma OnlyConstructorReachable(raw: string)
    ensures Read(LegacyMap, NormalizeLegacyKey(raw)).Inherited? ==> NormalizeLegacyKey(raw) == "constructor"
  {
    var k := NormalizeLegacyKey(raw);
    PrototypeNamesShape();
    assert !NotNormalized(k);
  }

  /** The label "constructor" is already a normalised key. */
  lemma ConstructorIsNormal(raw: string)
    requires raw == "constructor"
    ensures NormalizeLegacyKey(raw) == "constructor"
  {
    assert forall i :: 0 <= i < |raw| ==> raw[i] != '_' && raw[i] != ' ' && !IsUpperAscii(raw[i]);
    NormalizeLegacyKeyFixed(raw);
  }

  lemma ConstructorIsInherited(k: string)
    requires k == "constructor"
    ensures k !in LegacyMap && k in ObjectPrototypeNames
  {}

  /** Every label that normalises to "constructor" ("constructor" itself,
      " Constructor ", ...) resolves to the inherited `Object` function,
      which is neither a string nor a registered id. */
  lemma ConstructorLabelLeaks(raw: string)
    requires NormalizeLegacyKey(raw) == "constructor"
    ensures MapLegacyAsWritten(Some(raw)) == ObjectMember("constructor")
  {
    ConstructorIsInherited(NormalizeLegacyKey(raw));
    AsWrittenInherited(raw);
  }

  /** A label whose key is inherited, not own, comes back as that member. */
  lemma AsWrittenInherited(raw: string)
    requires raw != ""
    requires NormalizeLegacyKey(raw) !in LegacyMap && NormalizeLegacyKey(raw) in ObjectPrototypeNames
    ensures MapLegacyAsWritten(Some(raw)) == ObjectMember(NormalizeLegacyKey(raw))
  {}

  /** `mapLegacyUseCaseId` with own keys only: an empty, missing or unknown
      label gives the default, a known label its table entry. The result is
      always a registered id. */
  function MapLegacyUseCaseId(raw: Option<string>): (r: string)
    ensures raw.None? || raw == Some("") ==> r == DefaultUseCaseId
    ensures raw.Some? && raw.value != "" && NormalizeLegacyKey(raw.value) in LegacyMap ==>
      r == LegacyMap[NormalizeLegacyKey(raw.value)]
    ensures raw.Some? && NormalizeLegacyKey(raw.value) !in LegacyMap ==> r == DefaultUseCaseId
    ensures IsRegistered(r)
  {
    TableTargetsRegistered();
    DefaultIsRegistered();
    if raw.None? || raw.value == "" then DefaultUseCaseId
    else
      var key := NormalizeLegacyKey(raw.value);
      if key in LegacyMap then LegacyMap[key] else DefaultUseCaseId
  }

  /** The two versions agree on every label except the one that hits an
      inherited member, where the corrected one gives the default. */
  lemma MapLegacyAgrees(raw: Option<string>)
    ensures MapLegacyAsWritten(raw).Text? ==> MapLegacyAsWritten(raw) == Text(MapLegacyUseCaseId(raw))
    ensures MapLegacyAsWritten(raw).ObjectMember? ==> MapLegacyUseCaseId(raw) == DefaultUseCaseId
  {}

  /** A label whose key is longer than every legacy label falls back to
      the default; "Cycling Apparel" (key "cycling-apparel", an id but not a
      legacy label) is one. */
  lemma LongLabelIsDefault(name: string)
    requires |NormalizeLegacyKey(name)| > 10
    ensures MapLegacyUseCaseId(Some(name)) == DefaultUseCaseId
  {
    LegacyKeysShort();
    assert NormalizeLegacyKey(name) !in LegacyMap;
  }

  lemma DisplayNameKey(name: string)
    requires name == "Cycling Apparel"
    ensures |NormalizeLegacyKey(name)| == 15
  {
    TrimUnchanged(name);
  }

  lemma LegacyKeysShort()
    ensures forall k | k in LegacyMap :: |k| <= 10
  {}

  /** `USE_CASES_BY_ID.has(id)`, after the truthiness test on `use_case_id`. */
  predicate Usable(id: Option<string>)
  {
    id.Some? && id.value != "" && IsRegistered(id.value)
  }

  /** `resolveUseCaseId` as written, on `use_case_id` and `use_case`. An
      inherited alias entry is truthy but never a registered id, so only
      own alias entries can be returned here. */
  function ResolveAsWritten(useCaseId: Option<string>, useCase: Option<string>): (r: IdValue)
  {
    if Usable(useCaseId) then Text(useCaseId.value)
    else if useCaseId.Some? && useCaseId.value != "" && useCaseId.value in IdAliasMap
      && IsRegistered(IdAliasMap[useCaseId.value]) then Text(IdAliasMap[useCaseId.value])
    else MapLegacyAsWritten(useCase)
  }

  /** `resolveUseCaseId` over the corrected legacy lookup: a registered id
      wins, then a registered alias target, then the legacy label. */
  function ResolveUseCaseId(useCaseId: Option<string>, useCase: Option<string>): (r: string)
    ensures Usable(useCaseId) ==> r == useCaseId.value
    ensures !Usable(useCaseId) && useCaseId.Some? && useCaseId.value in IdAliasMap ==>
      r == IdAliasMap[useCaseId.value]
    ensures !Usable(useCaseId) && (useCaseId.None? || useCaseId.value !in IdAliasMap) ==>
      r == MapLegacyUseCaseId(useCase)
    ensures IsRegistered(r)
  {
    TableTargetsRegistered();
    if Usable(useCaseId) then useCaseId.value
    else if useCaseId.Some? && useCaseId.value != "" && useCaseId.value in IdAliasMap
      && IsRegistered(IdAliasMap[useCaseId.value]) then IdAliasMap[useCaseId.value]
    else MapLegacyUseCaseId(useCase)
  }

  /** The two resolvers agree except where the one as written returns an
      inherited member; the corrected one then gives the default. */
  lemma ResolveAgrees(useCaseId: Option<string>, useCase: Option<string>)
    ensures ResolveAsWritten(useCaseId, useCase).Text? ==>
      ResolveAsWritten(useCaseId, useCase) == Text(ResolveUseCaseId(useCaseId, useCase))
    ensures ResolveAsWritten(useCaseId, useCase).ObjectMember? ==>
      ResolveUseCaseId(useCaseId, useCase) == DefaultUseCaseId
  {
    MapLegacyAgrees(useCase);
  }

  /** A payload whose label is "constructor" makes the resolver as written
      return a non-id. */
  lemma ResolveLeaks(name: string)
    requires NormalizeLegacyKey(name) == "constructor"
    ensures ResolveAsWritten(None, Some(name)) == ObjectMember("constructor")
    ensures !ResolveAsWritten(None, Some(name)).Text?
  {
    ConstructorLabelLeaks(name);
  }

  /** `getUseCaseById`: total; a missing, empty or unknown id gives the
      default profile. */
  function GetUseCaseById(id: Option<string>): (r: UseCaseConfig)
    ensures r in UseCases
    ensures id.Some? && IsRegistered(id.value) ==> r.id == id.value
    ensures !(id.Some? && IsRegistered(id.value)) ==> r == DefaultUseCase()
  {
    EmptyIdUnregistered();
    if id.Some? && id.value != "" && Lookup(id.value).Some? then Lookup(id.value).value
    else DefaultUseCase()
  }

  /** `getUseCaseById` on whatever the resolver returned: a map lookup with
      a non-string key misses. */
  function GetUseCaseByValue(v: IdValue): (r: UseCaseConfig)
    ensures v.ObjectMember? ==> r == DefaultUseCase()
    ensures v.Text? ==> r == GetUseCaseById(Some(v.s))
  {
    match v
    case Text(s) => GetUseCaseById(Some(s))
    case ObjectMember(_) => DefaultUseCase()
  }

  /** Generation looks the resolved id up again, so the profile it uses is
      the same under both resolvers. */
  lemma ResolvedProfileAgrees(useCaseId: Option<string>, useCase: Option<string>)
    ensures GetUseCaseByValue(ResolveAsWritten(useCaseId, useCase))
         == GetUseCaseById(Some(ResolveUseCaseId(useCaseId, useCase)))
  {
    ResolveAgrees(useCaseId, useCase);
    DefaultIsRegistered();
    if ResolveAsWritten(useCaseId, useCase).ObjectMember? {
      SameIdSameProfile(DefaultUseCase(), GetUseCaseById(Some(DefaultUseCaseId)));
    }
  }

  /** The characters the search reads as white space. */
  predicate SearchBlank(c: char)
  {
    IsJsWhitespace(c) || c == '-' || c == '_'
  }

  /** One character as the search sees it: lower-cased, with `-` and `_`
      read as spaces. */
  function SearchChar(c: char): (r: char)
    ensures r != '-' && r != '_' && !IsUpperAscii(r)
  {
    if c == '-' || c == '_' then ' ' else LowerChar(c)
  }

  /** The search reads a character as white space exactly when it is white
      space, `-` or `_`. */
  lemma SearchCharBlank(c: char)
    ensures IsJsWhitespace(SearchChar(c)) <==> SearchBlank(c)
  {}

  /** Lower-case with `-` and `_` turned into spaces, character by
      character. */
  function SearchChars(text: string): (r: string)
    ensures |r| == |text|
  {
    seq(|text|, i requires 0 <= i < |text| => SearchChar(text[i]))
  }

  /** The source's chain, `toLowerCase` then `replaceAll` of `-` and of `_`
      by a space, yields SearchChars. */
  lemma SearchCharsReplace(text: string)
    ensures ReplaceChar(ReplaceChar(Lower(text), '-', ' '), '_', ' ') == SearchChars(text)
  {
  }

  /** The search `normalize`: lower-case, `-` and `_` become spaces, trim. */
  function SearchNormalize(text: string): (r: string)
    ensures forall i :: 0 <= i < |r| ==> r[i] != '-' && r[i] != '_' && !IsUpperAscii(r[i])
    ensures |r| > 0 ==> !IsJsWhitespace(r[0]) && !IsJsWhitespace(r[|r| - 1])
  {
    var s := SearchChars(text);
    TrimKeeps(s, c => c != '-' && c != '_' && !IsUpperAscii(c));
    Trim(s)
  }

  /** Where the text the search keeps begins: the length of the blank run
      the trim cuts off at the start. */
  function SearchCut(text: string): nat
  {
    |text| - |TrimStart(SearchChars(text))|
  }

  /** What the search keeps of a text: the characters from SearchCut on,
      each as the search sees it, where everything cut off at either end is
      white space, `-` or `_`. */
  lemma SearchNormalizeCuts(text: string)
    ensures SearchCut(text) + |SearchNormalize(text)| <= |text|
    ensures forall i :: 0 <= i < |SearchNormalize(text)| ==>
      SearchNormalize(text)[i] == SearchChar(text[SearchCut(text) + i])
    ensures forall i :: 0 <= i < SearchCut(text) ==> SearchBlank(text[i])
    ensures forall i :: SearchCut(text) + |SearchNormalize(text)| <= i < |text| ==> SearchBlank(text[i])
  {
    SearchTrimCuts(text, SearchChars(text), SearchNormalize(text), SearchCut(text));
  }

  lemma SearchTrimCuts(text: string, s: string, r: string, k: nat)
    requires s == SearchChars(text) && r == Trim(s) && k == |s| - |TrimStart(s)|
    ensures k + |r| <= |text|
    ensures forall i :: 0 <= i < |r| ==> r[i] == SearchChar(text[k + i])
    ensures forall i :: 0 <= i < k ==> SearchBlank(text[i])
    ensures forall i :: k + |r| <= i < |text| ==> SearchBlank(text[i])
  {
    TrimParts(s, r, k);
    SearchCutsCore(text, s, r, k);
  }

  lemma SearchCutsCore(text: string, s: string, r: string, k: nat)
    requires |s| == |text| && forall i :: 0 <= i < |s| ==> s[i] == SearchChar(text[i])
    requires k + |r| <= |s| && r == s[k..k + |r|]
    requires forall i :: 0 <= i < k ==> IsJsWhitespace(s[i])
    requires forall i :: k + |r| <= i < |s| ==> IsJsWhitespace(s[i])
    ensures forall i :: 0 <= i < |r| ==> r[i] == SearchChar(text[k + i])
    ensures forall i :: 0 <= i < k ==> SearchBlank(text[i])
    ensures forall i :: k + |r| <= i < |text| ==> SearchBlank(text[i])
  {
    forall i | 0 <= i < |r| ensures r[i] == SearchChar(text[k + i]) {
      assert r[i] == s[k + i];
    }
    forall i | 0 <= i < |text| ensures IsJsWhitespace(s[i]) ==> SearchBlank(text[i]) {
      SearchCharBlank(text[i]);
    }
  }

  /** The category choice of the listing. */
  datatype CategoryFilter = AllCategories | OnlyCategory(category: UseCaseCategory)

  /** The text a query is searched in. */
  function Haystack(u: UseCaseConfig): string
  {
    SearchNormalize(u.displayName + " " + u.id + " " + CategoryKey(u.category) + " " + u.description)
  }

  /** The filter of `getUseCaseGroups`, for a normalised query. */
  predicate Keep(u: UseCaseConfig, category: CategoryFilter, q: string)
  {
    (category.AllCategories? || u.category == category.category) && (q == "" || Includes(Haystack(u), q))
  }

  function FilterUseCases(cs: seq<UseCaseConfig>, category: CategoryFilter, q: string): (r: seq<UseCaseConfig>)
    ensures |r| <= |cs|
    ensures forall u :: u in r <==> u in cs && Keep(u, category, q)
  {
    if |cs| == 0 then []
    else
      var rest := FilterUseCases(cs[..|cs| - 1], category, q);
      var u := cs[|cs| - 1];
      assert cs == cs[..|cs| - 1] + [u];
      if Keep(u, category, q) then rest + [u] else rest
  }

  /** Filtering the use cases keeps the order and splits over concatenation:
      filtering a + b is filtering a, then b. */
  lemma {:induction false} FilterUseCasesAppend(a: seq<UseCaseConfig>, b: seq<UseCaseConfig>, category: CategoryFilter, q: string)
    ensures FilterUseCases(a + b, category, q) == FilterUseCases(a, category, q) + FilterUseCases(b, category, q)
    decreases |b|
  {
    if |b| == 0 {
      assert a + b == a;
    } else {
      var b' := b[..|b| - 1];
      assert (a + b)[..|a + b| - 1] == a + b';
      assert (a + b)[|a + b| - 1] == b[|b| - 1];
      FilterUseCasesAppend(a, b', category, q);
    }
  }

  /** A single use case is kept exactly when it passes. */
  lemma FilterUseCasesSingle(x: UseCaseConfig, category: CategoryFilter, q: string)
    ensures FilterUseCases([x], category, q) == (if Keep(x, category, q) then [x] else [])
  {
    assert [x][..0] == [];
  }

  /** With no query and no category every use case survives, in order. */
  lemma {:induction false} FilterKeepsAll(cs: seq<UseCaseConfig>)
    ensures FilterUseCases(cs, AllCategories, "") == cs
  {
    if |cs| > 0 {
      FilterKeepsAll(cs[..|cs| - 1]);
      assert cs == cs[..|cs| - 1] + [cs[|cs| - 1]];
    }
  }

  datatype Group = Group(category: UseCaseCategory, items: seq<UseCaseConfig>)

  /** The use cases of one category, in order. */
  function OfCategory(cs: seq<UseCaseConfig>, c: UseCaseCategory): seq<UseCaseConfig>
  {
    if |cs| == 0 then []
    else
      var rest := OfCategory(cs[..|cs| - 1], c);
      if cs[|cs| - 1].category == c then rest + [cs[|cs| - 1]] else rest
  }

  lemma {:induction false} OfCategoryEmpty(cs: seq<UseCaseConfig>, c: UseCaseCategory)
    requires forall k :: 0 <= k < |cs| ==> cs[k].category != c
    ensures OfCategory(cs, c) == []
  {
    if |cs| > 0 {
      OfCategoryEmpty(cs[..|cs| - 1], c);
    }
  }

  lemma {:induction false} OfCategoryMembers(cs: seq<UseCaseConfig>, c: UseCaseCategory)
    ensures forall u :: u in OfCategory(cs, c) <==> u in cs && u.category == c
  {
    if |cs| > 0 {
      OfCategoryMembers(cs[..|cs| - 1], c);
      assert cs == cs[..|cs| - 1] + [cs[|cs| - 1]];
    }
  }

  /** The position of the group of a category, or -1. */
  function GroupIndex(gs: seq<Group>, c: UseCaseCategory): (r: int)
    ensures -1 <= r < |gs|
    ensures r >= 0 ==> gs[r].category == c
    ensures r == -1 <==> forall i :: 0 <= i < |gs| ==> gs[i].category != c
  {
    if |gs| == 0 then -1
    else if gs[|gs| - 1].category == c then |gs| - 1
    else GroupIndex(gs[..|gs| - 1], c)
  }

  /** One step of the grouping loop: append to the category's group, or open
      a new group at the end. */
  function AddToGroups(gs: seq<Group>, u: UseCaseConfig): (r: seq<Group>)
    ensures GroupIndex(gs, u.category) >= 0 ==> |r| == |gs|
    ensures GroupIndex(gs, u.category) < 0 ==> |r| == |gs| + 1 && r[|gs|] == Group(u.category, [u])
    ensures forall i :: 0 <= i < |gs| ==> r[i].category == gs[i].category
    ensures forall i :: 0 <= i < |gs| && i != GroupIndex(gs, u.category) ==> r[i] == gs[i]
    ensures GroupIndex(gs, u.category) >= 0 ==> r[GroupIndex(gs, u.category)].items == gs[GroupIndex(gs, u.category)].items + [u]
  {
    var k := GroupIndex(gs, u.category);
    if k >= 0 then gs[k := Group(u.category, gs[k].items + [u])]
    else gs + [Group(u.category, [u])]
  }

  /** The grouping loop over the filtered list. */
  function GroupByCategory(cs: seq<UseCaseConfig>): seq<Group>
  {
    if |cs| == 0 then [] else AddToGroups(GroupByCategory(cs[..|cs| - 1]), cs[|cs| - 1])
  }

  /** The position of the first use case of a category. */
  function FirstOf(cs: seq<UseCaseConfig>, c: UseCaseCategory): (r: int)
    ensures -1 <= r < |cs|
    ensures r >= 0 ==> cs[r].category == c && forall k :: 0 <= k < r ==> cs[k].category != c
    ensures r == -1 <==> forall k :: 0 <= k < |cs| ==> cs[k].category != c
  {
    if |cs| == 0 then -1
    else
      var r := FirstOf(cs[..|cs| - 1], c);
      if r >= 0 then r else if cs[|cs| - 1].category == c then |cs| - 1 else -1
  }

  predicate DistinctCategories(gs: seq<Group>)
  {
    forall i, j :: 0 <= i < j < |gs| ==> gs[i].category != gs[j].category
  }

  /** The groups name exactly the categories that occur. */
  predicate SameCategories(gs: seq<Group>, cs: seq<UseCaseConfig>)
  {
    && (forall k :: 0 <= k < |cs| ==> GroupIndex(gs, cs[k].category) >= 0)
    && (forall i :: 0 <= i < |gs| ==> FirstOf(cs, gs[i].category) >= 0)
  }

  predicate ItemsByCategory(gs: seq<Group>, cs: seq<UseCaseConfig>)
  {
    forall i :: 0 <= i < |gs| ==> gs[i].items == OfCategory(cs, gs[i].category)
  }

  predicate FirstOccurrenceOrder(gs: seq<Group>, cs: seq<UseCaseConfig>)
  {
    forall i, j :: 0 <= i < j < |gs| ==> FirstOf(cs, gs[i].category) < FirstOf(cs, gs[j].category)
  }

  /** The groups as a reference description: one group per category that
      occurs, no category twice, each group holding exactly the use cases
      of its category in list order, and groups in the order their
      categories first occur. */
  predicate GroupedBy(gs: seq<Group>, cs: seq<UseCaseConfig>)
  {
    DistinctCategories(gs) && SameCategories(gs, cs) && ItemsByCategory(gs, cs) && FirstOccurrenceOrder(gs, cs)
  }

  /** Appending one use case changes nothing for the other categories. */
  lemma AppendOtherCategory(cs: seq<UseCaseConfig>, c: UseCaseCategory)
    requires |cs| > 0 && cs[|cs| - 1].category != c
    ensures OfCategory(cs, c) == OfCategory(cs[..|cs| - 1], c)
    ensures FirstOf(cs, c) == FirstOf(cs[..|cs| - 1], c)
  {}

  lemma {:induction false} GroupCategories(cs: seq<UseCaseConfig>)
    ensures DistinctCategories(GroupByCategory(cs)) && SameCategories(GroupByCategory(cs), cs)
  {
    if |cs| > 0 {
      var init := cs[..|cs| - 1];
      GroupCategories(init);
      GroupStepDistinct(GroupByCategory(init), cs[|cs| - 1]);
      GroupStepCovers(cs);
      GroupStepOccur(cs);
    }
  }

  /** Opening a group only for an unseen category keeps categories distinct. */
  lemma GroupStepDistinct(gs: seq<Group>, u: UseCaseConfig)
    requires DistinctCategories(gs)
    ensures DistinctCategories(AddToGroups(gs, u))
  {}

  /** After a step every listed use case has its group. */
  lemma GroupStepCovers(cs: seq<UseCaseConfig>)
    requires |cs| > 0 && SameCategories(GroupByCategory(cs[..|cs| - 1]), cs[..|cs| - 1])
    ensures forall q :: 0 <= q < |cs| ==> GroupIndex(GroupByCategory(cs), cs[q].category) >= 0
  {
    forall q | 0 <= q < |cs| ensures GroupIndex(GroupByCategory(cs), cs[q].category) >= 0 {
      GroupCoversOne(cs, q);
    }
  }

  lemma GroupCoversOne(cs: seq<UseCaseConfig>, q: nat)
    requires q < |cs| && SameCategories(GroupByCategory(cs[..|cs| - 1]), cs[..|cs| - 1])
    ensures GroupIndex(GroupByCategory(cs), cs[q].category) >= 0
  {
    var init, u := cs[..|cs| - 1], cs[|cs| - 1];
    var gs := GroupByCategory(init);
    var r := AddToGroups(gs, u);
    assert GroupByCategory(cs) == r;
    var c := cs[q].category;
    if q < |cs| - 1 {
      assert init[q] == cs[q];
      var g := GroupIndex(gs, c);
      assert r[g].category == c;
    } else if GroupIndex(gs, c) >= 0 {
      assert r[GroupIndex(gs, c)].category == c;
    } else {
      assert r[|gs|].category == c;
    }
  }

  /** After a step every group's category occurs in the list. */
  lemma GroupStepOccur(cs: seq<UseCaseConfig>)
    requires |cs| > 0 && SameCategories(GroupByCategory(cs[..|cs| - 1]), cs[..|cs| - 1])
    ensures forall i :: 0 <= i < |GroupByCategory(cs)| ==> FirstOf(cs, GroupByCategory(cs)[i].category) >= 0
  {
    var init, u := cs[..|cs| - 1], cs[|cs| - 1];
    var gs, r := GroupByCategory(init), GroupByCategory(cs);
    forall i | 0 <= i < |r| ensures FirstOf(cs, r[i].category) >= 0 {
      if i < |gs| && r[i].category != u.category {
        AppendOtherCategory(cs, r[i].category);
      }
    }
  }

  lemma {:induction false} GroupItems(cs: seq<UseCaseConfig>)
    ensures ItemsByCategory(GroupByCategory(cs), cs)
  {
    if |cs| > 0 {
      var init, u := cs[..|cs| - 1], cs[|cs| - 1];
      GroupItems(init);
      GroupCategories(init);
      var gs, r := GroupByCategory(init), GroupByCategory(cs);
      assert OfCategory(cs, u.category) == OfCategory(init, u.category) + [u];
      forall i | 0 <= i < |r| ensures r[i].items == OfCategory(cs, r[i].category) {
        if i < |gs| && r[i].category != u.category {
          AppendOtherCategory(cs, r[i].category);
        } else if i == |gs| {
          OfCategoryEmpty(init, u.category);
        }
      }
    }
  }

  /** Appending a use case keeps the first occurrence of every category
      already grouped. */
  lemma FirstOfKept(cs: seq<UseCaseConfig>, init: seq<UseCaseConfig>, gs: seq<Group>)
    requires |cs| > 0 && init == cs[..|cs| - 1] && gs == GroupByCategory(init)
    ensures forall i :: 0 <= i < |gs| ==> FirstOf(cs, gs[i].category) == FirstOf(init, gs[i].category)
  {
    var u := cs[|cs| - 1];
    GroupCategories(init);
    forall i | 0 <= i < |gs| ensures FirstOf(cs, gs[i].category) == FirstOf(init, gs[i].category) {
      if gs[i].category != u.category {
        AppendOtherCategory(cs, gs[i].category);
      } else {
        assert FirstOf(init, gs[i].category) >= 0;
      }
    }
  }

  /** A category not grouped before first occurs at the appended use case. */
  lemma NewGroupFirstAtEnd(cs: seq<UseCaseConfig>, init: seq<UseCaseConfig>, gs: seq<Group>)
    requires |cs| > 0 && init == cs[..|cs| - 1] && gs == GroupByCategory(init)
    requires GroupIndex(gs, cs[|cs| - 1].category) < 0
    ensures FirstOf(cs, cs[|cs| - 1].category) == |cs| - 1
  {
    var u := cs[|cs| - 1];
    GroupCategories(init);
    assert forall k :: 0 <= k < |init| ==> init[k].category != u.category;
  }

  lemma {:induction false} GroupOrder(cs: seq<UseCaseConfig>)
    ensures FirstOccurrenceOrder(GroupByCategory(cs), cs)
  {
    if |cs| > 0 {
      var init, u := cs[..|cs| - 1], cs[|cs| - 1];
      GroupOrder(init);
      var gs, r := GroupByCategory(init), GroupByCategory(cs);
      FirstOfKept(cs, init, gs);
      assert r == AddToGroups(gs, u);
      forall i, j | 0 <= i < j < |r| ensures FirstOf(cs, r[i].category) < FirstOf(cs, r[j].category) {
        assert r[i].category == gs[i].category;
        if j < |gs| {
          assert r[j].category == gs[j].category;
        } else {
          NewGroupFirstAtEnd(cs, init, gs);
        }
      }
    }
  }

  lemma GroupByCategoryCorrect(cs: seq<UseCaseConfig>)
    ensures GroupedBy(GroupByCategory(cs), cs)
  {
    GroupCategories(cs);
    GroupItems(cs);
    GroupOrder(cs);
  }

  /** Every surviving use case lies in exactly one group: the one of its
      category. */
  lemma InExactlyOneGroup(cs: seq<UseCaseConfig>, u: UseCaseConfig)
    requires u in cs
    ensures var gs := GroupByCategory(cs);
      forall i | 0 <= i < |gs| :: u in gs[i].items <==> gs[i].category == u.category
    ensures var gs := GroupByCategory(cs);
      exists j :: 0 <= j < |gs| && gs[j].category == u.category && u in gs[j].items
  {
    var gs := GroupByCategory(cs);
    GroupCategories(cs);
    GroupItems(cs);
    forall i | 0 <= i < |gs| ensures u in gs[i].items <==> gs[i].category == u.category {
      OfCategoryMembers(cs, gs[i].category);
    }
    var q :| 0 <= q < |cs| && cs[q] == u;
    var j := GroupIndex(gs, cs[q].category);
    assert gs[j].category == u.category;
  }

  /** `getUseCaseGroups`: filter the table by category and normalised query,
      then group by category. */
  function GetUseCaseGroups(query: Option<string>, category: Option<CategoryFilter>): (r: seq<Group>)
    ensures var q := SearchNormalize(query.GetOr(""));
      GroupedBy(r, FilterUseCases(UseCases, category.GetOr(AllCategories), q))
  {
    var q := SearchNormalize(query.GetOr(""));
    var filtered := FilterUseCases(UseCases, category.GetOr(AllCategories), q);
    GroupByCategoryCorrect(filtered);
    GroupByCategory(filtered)
  }

  /** With no query and every category, each profile of the table is listed
      in the group of its category and in no other. */
  lemma EmptyQueryListsAll(u: UseCaseConfig)
    requires u in UseCases
    ensures var gs := GetUseCaseGroups(None, None);
      forall i | 0 <= i < |gs| :: u in gs[i].items <==> gs[i].category == u.category
    ensures var gs := GetUseCaseGroups(None, None);
      exists j :: 0 <= j < |gs| && gs[j].category == u.category && u in gs[j].items
  {
    assert SearchNormalize("") == "";
    FilterKeepsAll(UseCases);
    InExactlyOneGroup(UseCases, u);
  }
}
