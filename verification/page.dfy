/**
 * The extraction rules applied to a parsed page. A page is the sequence of its
 * elements in document order (what `Descendants()` enumerates); tag and attribute
 * names are lower case, as the HTML parser stores them.
 */
module Page {
  import opened Wrappers
  import opened Text
  import opened Query
  import opened Labels
  import opened Numbers
  import opened Portal

  /**
   * One element: its tag, its attributes, the identity of its parent node, its
   * inner text, and the inner text of its next sibling node (None when it has none).
   */
  datatype Element = Element(
    tag: string,
    attributes: map<string, string>,
    parent: nat,
    innerText: string,
    nextSiblingText: Option<string>)

  type Document = seq<Element>

  datatype Summary = Summary(iconUrl: string, arm: string, mode: string)
  datatype ArmOption = ArmOption(key: string, display: string)
  datatype ModeOption = ModeOption(key: int32, display: string)

  /** `GetAttributeValue(name, null)`. */
  function Attr(e: Element, name: string): Option<string> {
    if name in e.attributes then Some(e.attributes[name]) else None
  }

  /** `GetAttributeValue(name, default)` with a non-null default. */
  function AttrOr(e: Element, name: string, default: string): string {
    if name in e.attributes then e.attributes[name] else default
  }

  /** `!string.IsNullOrEmpty(s)`. */
  predicate NonEmpty(s: Option<string>) {
    s.Some? && s.value != ""
  }

  /** Case-insensitive comparison of an attribute that may be absent; absent never matches. */
  predicate AttrIs(e: Element, name: string, expected: string) {
    Attr(e, name).Some? && EqualsIgnoreCase(Attr(e, name).value, expected)
  }

  // ----- Summary page -----

  predicate IsSystemIcon(e: Element) {
    e.tag == "img" && AttrIs(e, "alt", "System Icon")
  }

  /** An anchor whose href (empty when absent) ends with the suffix, ignoring case. */
  predicate LinksTo(e: Element, suffix: string) {
    e.tag == "a" && EndsWithIgnoreCase(AttrOr(e, "href", ""), suffix)
  }

  /** The first anchor to the page with this suffix exists and has a next sibling. */
  predicate HasLabel(doc: Document, suffix: string) {
    exists i :: 0 <= i < |doc| && LinksTo(doc[i], suffix)
      && (forall j :: 0 <= j < i ==> !LinksTo(doc[j], suffix))
      && doc[i].nextSiblingText.Some?
  }

  /** The label read after the first anchor to the page with this suffix is `text`. */
  predicate LabelIs(doc: Document, suffix: string, text: string) {
    exists i :: 0 <= i < |doc| && LinksTo(doc[i], suffix)
      && (forall j :: 0 <= j < i ==> !LinksTo(doc[j], suffix))
      && doc[i].nextSiblingText.Some?
      && text == NormalizeLabel(doc[i].nextSiblingText.value)
  }

  /** The normalised text after the first anchor to the page with this suffix. */
  function LabelAfter(doc: Document, suffix: string): Option<string> {
    match FindFirst(doc, e => LinksTo(e, suffix))
    case None => None
    case Some(i) =>
      match doc[i].nextSiblingText
      case None => None
      case Some(t) => Some(NormalizeLabel(t))
  }

  /** A label is read exactly when the first matching anchor has a next sibling, and it is that sibling's text, normalised. */
  lemma LabelAfterSpec(doc: Document, suffix: string)
    ensures LabelAfter(doc, suffix).Some? <==> HasLabel(doc, suffix)
    ensures LabelAfter(doc, suffix).Some? ==> LabelIs(doc, suffix, LabelAfter(doc, suffix).value)
  {
    var p := e => LinksTo(e, suffix);
    match FindFirst(doc, p)
    case None =>
    case Some(i) =>
      forall k | 0 <= k < |doc| && LinksTo(doc[k], suffix) && (forall j :: 0 <= j < k ==> !LinksTo(doc[j], suffix))
        ensures k == i
      {
        FindFirstIs(doc, p, k);
      }
  }

  /**
   * The summary read from the summary page: the "System Icon" image's source after
   * the portal origin, and the normalised texts after the first links to the arm
   * and mode pages. None when any of the three is missing.
   */
  function SummaryOf(doc: Document): Option<Summary> {
    match FindFirst(doc, IsSystemIcon)
    case None => None
    case Some(i) =>
      match (LabelAfter(doc, ListArmSuffix), LabelAfter(doc, ListModeSuffix))
      case (Some(arm), Some(mode)) => Some(Summary(AdtDomain + AttrOr(doc[i], "src", ""), arm, mode))
      case _ => None
  }

  /** SummaryOf is the icon lookup and the two label readings, combined. */
  lemma SummaryOfParts(doc: Document)
    ensures SummaryOf(doc).Some? <==>
      FindFirst(doc, IsSystemIcon).Some? && LabelAfter(doc, ListArmSuffix).Some? && LabelAfter(doc, ListModeSuffix).Some?
    ensures SummaryOf(doc).Some? ==>
      && SummaryOf(doc).value.iconUrl == AdtDomain + AttrOr(doc[FindFirst(doc, IsSystemIcon).value], "src", "")
      && SummaryOf(doc).value.arm == LabelAfter(doc, ListArmSuffix).value
      && SummaryOf(doc).value.mode == LabelAfter(doc, ListModeSuffix).value
  {
  }

  /**
   * The summary exists exactly when the icon and both labels are found; the icon URL
   * is the origin followed by the first icon's source, and the labels are normalised.
   */
  lemma SummaryOfSpec(doc: Document)
    ensures SummaryOf(doc).Some? <==>
      (exists i :: 0 <= i < |doc| && IsSystemIcon(doc[i]))
      && HasLabel(doc, ListArmSuffix) && HasLabel(doc, ListModeSuffix)
    ensures SummaryOf(doc).Some? ==>
      exists i :: 0 <= i < |doc| && IsSystemIcon(doc[i])
        && (forall j :: 0 <= j < i ==> !IsSystemIcon(doc[j]))
        && SummaryOf(doc).value.iconUrl == AdtDomain + AttrOr(doc[i], "src", "")
    ensures SummaryOf(doc).Some? ==>
      && LabelIs(doc, ListArmSuffix, SummaryOf(doc).value.arm) && IsNormalLabel(SummaryOf(doc).value.arm)
      && LabelIs(doc, ListModeSuffix, SummaryOf(doc).value.mode) && IsNormalLabel(SummaryOf(doc).value.mode)
  {
    SummaryOfParts(doc);
    LabelAfterSpec(doc, ListArmSuffix);
    LabelAfterSpec(doc, ListModeSuffix);
    var icon := FindFirst(doc, IsSystemIcon);
    if icon.Some? {
      assert IsSystemIcon(doc[icon.value]);
    }
  }

  // ----- The adjacency rule -----

  /** An input in the same parent as e whose type is "submit", ignoring case. */
  predicate IsSubmitSibling(e: Element, n: Element) {
    n.tag == "input" && n.parent == e.parent && AttrIs(n, "type", "submit")
  }

  /**
   * The display value of an input: the value attribute (possibly absent) of the first
   * submit input in the same parent; None when there is no such input, which the C#
   * code signals by throwing.
   */
  function DisplayValue(doc: Document, e: Element): (r: Option<Option<string>>)
    ensures r.None? <==> forall i :: 0 <= i < |doc| ==> !IsSubmitSibling(e, doc[i])
    ensures r.Some? ==>
      exists i :: 0 <= i < |doc| && IsSubmitSibling(e, doc[i])
        && (forall j :: 0 <= j < i ==> !IsSubmitSibling(e, doc[j]))
        && r.value == Attr(doc[i], "value")
  {
    match FindFirst(doc, n => IsSubmitSibling(e, n))
    case None => None
    case Some(i) => Some(Attr(doc[i], "value"))
  }

  // ----- Arm options -----

  /** An input whose name is exactly "value" (ordinal comparison). */
  predicate IsArmInput(e: Element) {
    e.tag == "input" && Attr(e, "name") == Some("value")
  }

  function ArmRow(doc: Document, e: Element): Row<ArmOption> {
    if !IsArmInput(e) then Skip
    else match DisplayValue(doc, e)
      case None => Fail
      case Some(shown) =>
        if NonEmpty(Attr(e, "value")) && NonEmpty(shown)
        then Keep(ArmOption(Attr(e, "value").value, shown.value))
        else Skip
  }

  /**
   * The arm options of the arm page: each "value" input's value paired with its
   * display value, empty keys and labels dropped; None when some "value" input has
   * no submit sibling.
   */
  function ArmOptions(doc: Document): (r: Option<seq<ArmOption>>)
    ensures r.None? <==> exists i :: 0 <= i < |doc| && IsArmInput(doc[i]) && DisplayValue(doc, doc[i]).None?
    ensures r.Some? ==> forall o :: o in r.value ==>
      o.key != "" && o.display != ""
      && exists i :: 0 <= i < |doc| && IsArmInput(doc[i])
           && Attr(doc[i], "value") == Some(o.key) && DisplayValue(doc, doc[i]) == Some(Some(o.display))
  {
    ArmListing(doc, doc)
  }

  /** The arm listing of the inputs in `part`, each read against the whole page. */
  function ArmListing(doc: Document, part: Document): Option<seq<ArmOption>> {
    FindAll(part, e => ArmRow(doc, e))
  }

  /**
   * The arm listing is built input by input: each element adds at most one pair, the
   * one its row keeps, and a "value" input without a submit sibling fails the listing.
   */
  lemma ArmListingStep(doc: Document, part: Document, e: Element)
    ensures ArmListing(doc, part + [e]) ==
      match ArmRow(doc, e)
      case Fail => None
      case Skip => ArmListing(doc, part)
      case Keep(o) => if ArmListing(doc, part).Some? then Some(ArmListing(doc, part).value + [o]) else None
  {
    FindAllSnoc(part, e, e => ArmRow(doc, e));
  }

  /** Every "value" input with a non-empty value and a non-empty display value is listed. */
  lemma ArmOptionsComplete(doc: Document, i: nat)
    requires i < |doc| && IsArmInput(doc[i]) && NonEmpty(Attr(doc[i], "value"))
    requires DisplayValue(doc, doc[i]).Some? && NonEmpty(DisplayValue(doc, doc[i]).value)
    requires ArmOptions(doc).Some?
    ensures ArmOption(Attr(doc[i], "value").value, DisplayValue(doc, doc[i]).value.value) in ArmOptions(doc).value
  {
    FindAllComplete(doc, e => ArmRow(doc, e), i);
  }

  /**
   * As written, the arm listing is returned unevaluated: on a page whose only "value"
   * input has no submit sibling the method hands back a query that throws when
   * enumerated, where the evident intent, modelled by ArmOptions, is a null result.
   */
  lemma DeferredArmListingThrows()
    ensures var doc := [Element("input", map["name" := "value", "value" := "1"], 0, "", None)];
      Enumerate(doc, e => ArmRow(doc, e)).throws && ArmOptions(doc).None?
  {
    var doc := [Element("input", map["name" := "value", "value" := "1"], 0, "", None)];
    assert IsArmInput(doc[0]) && DisplayValue(doc, doc[0]).None?;
  }

  // ----- Mode options -----

  /** An input whose name is "shiftModeId", ignoring case. */
  predicate IsModeInput(e: Element) {
    e.tag == "input" && AttrIs(e, "name", "shiftModeId")
  }

  /** `int.Parse` of a value attribute; a missing attribute fails like an unparsable one. */
  function ParseKey(v: Option<string>): Option<int32> {
    match v
    case None => None
    case Some(s) => ParseInt32(s)
  }

  function ModeRow(doc: Document, e: Element): Row<ModeOption> {
    if !IsModeInput(e) then Skip
    else match (ParseKey(Attr(e, "value")), DisplayValue(doc, e))
      case (Some(key), Some(shown)) =>
        if NonEmpty(shown) then Keep(ModeOption(key, shown.value)) else Skip
      case _ => Fail
  }

  /**
   * The mode options of the mode page: each "shiftModeId" input's value as an integer
   * paired with its display value, empty labels dropped; None when some such input has
   * a missing or non-numeric value or no submit sibling.
   */
  function ModeOptions(doc: Document): (r: Option<seq<ModeOption>>)
    ensures r.None? <==>
      exists i :: 0 <= i < |doc| && IsModeInput(doc[i])
        && (ParseKey(Attr(doc[i], "value")).None? || DisplayValue(doc, doc[i]).None?)
    ensures r.Some? ==> forall o :: o in r.value ==>
      o.display != ""
      && exists i :: 0 <= i < |doc| && IsModeInput(doc[i])
           && ParseKey(Attr(doc[i], "value")) == Some(o.key) && DisplayValue(doc, doc[i]) == Some(Some(o.display))
  {
    ModeListing(doc, doc)
  }

  /** The mode listing of the inputs in `part`, each read against the whole page. */
  function ModeListing(doc: Document, part: Document): Option<seq<ModeOption>> {
    FindAll(part, e => ModeRow(doc, e))
  }

  /**
   * The mode listing is built input by input: each element adds at most one pair, the
   * one its row keeps, and a "shiftModeId" input with a bad value or no submit sibling
   * fails the listing.
   */
  lemma ModeListingStep(doc: Document, part: Document, e: Element)
    ensures ModeListing(doc, part + [e]) ==
      match ModeRow(doc, e)
      case Fail => None
      case Skip => ModeListing(doc, part)
      case Keep(o) => if ModeListing(doc, part).Some? then Some(ModeListing(doc, part).value + [o]) else None
  {
    FindAllSnoc(part, e, e => ModeRow(doc, e));
  }

  /** Every "shiftModeId" input with a parsable value and a non-empty display value is listed. */
  lemma ModeOptionsComplete(doc: Document, i: nat)
    requires i < |doc| && IsModeInput(doc[i]) && ParseKey(Attr(doc[i], "value")).Some?
    requires DisplayValue(doc, doc[i]).Some? && NonEmpty(DisplayValue(doc, doc[i]).value)
    requires ModeOptions(doc).Some?
    ensures ModeOption(ParseKey(Attr(doc[i], "value")).value, DisplayValue(doc, doc[i]).value.value)
      in ModeOptions(doc).value
  {
    FindAllComplete(doc, e => ModeRow(doc, e), i);
  }

  // ----- Log -----

  /** A table row whose class is "p_rowLight" or "p_rowDark", ignoring case. */
  predicate IsLogRow(e: Element) {
    e.tag == "tr" && (AttrIs(e, "class", "p_rowLight") || AttrIs(e, "class", "p_rowDark"))
  }

  function LogRow(e: Element): Row<string> {
    if IsLogRow(e) then Keep(e.innerText) else Skip
  }

  /** The inner texts of the log rows of the log page; a page without log rows gives []. */
  function LogOf(doc: Document): (r: seq<string>)
    ensures forall x :: x in r ==> exists i :: 0 <= i < |doc| && IsLogRow(doc[i]) && doc[i].innerText == x
    ensures (forall i :: 0 <= i < |doc| ==> !IsLogRow(doc[i])) ==> r == []
  {
    var rows := FindAll(doc, LogRow);
    assert rows.Some?;
    assert rows.value != [] ==> rows.value[0] in rows.value;
    rows.value
  }

  /** The log keeps document order: the log of a + b is the log of a followed by the log of b. */
  lemma LogOfAppend(a: Document, b: Document)
    ensures LogOf(a + b) == LogOf(a) + LogOf(b)
  {
    FindAllAppend(a, b, LogRow);
  }

  /** A single element adds exactly its inner text to the log when it is a log row, and nothing otherwise. */
  lemma LogOfOne(e: Element)
    ensures LogOf([e]) == if IsLogRow(e) then [e.innerText] else []
  {
    FindAllOne(e, LogRow);
  }

  /** Every log row's text is in the log. */
  lemma LogOfComplete(doc: Document, i: nat)
    requires i < |doc| && IsLogRow(doc[i])
    ensures doc[i].innerText in LogOf(doc)
  {
    FindAllComplete(doc, LogRow, i);
  }

  // ----- Arm-change token bag -----

  /** An input carrying the given non-empty name (ordinal comparison). */
  predicate IsNamedInput(e: Element, name: string) {
    e.tag == "input" && name != "" && Attr(e, "name") == Some(name)
  }

  /** The value attribute of the first input with this name; None when there is none. */
  function FirstInputValue(doc: Document, name: string): Option<Option<string>> {
    match FindFirst(doc, e => IsNamedInput(e, name))
    case None => None
    case Some(i) => Some(Attr(doc[i], "value"))
  }

  /**
   * The dictionary built by grouping the inputs with a non-empty name by name and
   * keeping each group's first value.
   */
  function InputValues(doc: Document): (m: map<string, Option<string>>)
    ensures forall name :: name in m ==> name != ""
  {
    if doc == [] then map[]
    else
      var m := InputValues(doc[1..]);
      var e := doc[0];
      if e.tag == "input" && NonEmpty(Attr(e, "name")) then m[Attr(e, "name").value := Attr(e, "value")] else m
  }

  /** The dictionary holds, for each name, the value of the first input with that name. */
  lemma {:induction false} InputValuesFirstWins(doc: Document, name: string)
    ensures name in InputValues(doc) <==> FirstInputValue(doc, name).Some?
    ensures name in InputValues(doc) ==> InputValues(doc)[name] == FirstInputValue(doc, name).value
  {
    if doc != [] {
      InputValuesFirstWins(doc[1..], name);
      if !IsNamedInput(doc[0], name) {
        var p := e => IsNamedInput(e, name);
        match FindFirst(doc[1..], p)
        case None =>
        case Some(k) => assert doc[1..][k] == doc[k + 1];
      }
    }
  }

  /**
   * The token bag for an arm change: sat (falling back to tsat), fi, vn and ft from the
   * dictionary, then the requested value; None when a required token is missing.
   */
  function ArmContent(doc: Document, value: string): (r: Option<Form>)
    ensures r.Some? ==> Names(r.value) == ["sat", "fi", "vn", "ft", "value"] && r.value[4].value == Some(value)
  {
    var vals := InputValues(doc);
    if ("sat" in vals || "tsat" in vals) && "fi" in vals && "vn" in vals && "ft" in vals then
      Some([
        Field("sat", if "sat" in vals then vals["sat"] else vals["tsat"]),
        Field("fi", vals["fi"]),
        Field("vn", vals["vn"]),
        Field("ft", vals["ft"]),
        Field("value", Some(value))])
    else None
  }

  /** The bag in terms of first inputs: when it exists, and what each of its fields holds. */
  lemma ArmContentTokens(doc: Document, value: string)
    ensures var sat, tsat := FirstInputValue(doc, "sat"), FirstInputValue(doc, "tsat");
      var fi, vn, ft := FirstInputValue(doc, "fi"), FirstInputValue(doc, "vn"), FirstInputValue(doc, "ft");
      && (ArmContent(doc, value).Some? <==> (sat.Some? || tsat.Some?) && fi.Some? && vn.Some? && ft.Some?)
      && (ArmContent(doc, value).Some? ==>
        ArmContent(doc, value).value == [
          Field("sat", if sat.Some? then sat.value else tsat.value),
          Field("fi", fi.value),
          Field("vn", vn.value),
          Field("ft", ft.value),
          Field("value", Some(value))])
  {
    InputValuesFirstWins(doc, "sat");
    InputValuesFirstWins(doc, "tsat");
    InputValuesFirstWins(doc, "fi");
    InputValuesFirstWins(doc, "vn");
    InputValuesFirstWins(doc, "ft");
  }
}
