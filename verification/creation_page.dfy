/**
 * The announcement creation/update page: the multipart payload built on submit,
 * the create-or-update choice, the category options, the redirect after a
 * successful mutation, the cleanup on leaving, and the prefill of an edited listing.
 */
module CreationPage {
  import opened Wrappers
  import opened Entities
  import opened CreationForm
  import Decimal

  /**
   * One value of a multipart form. The price entry is the number input's text, sent
   * unchanged; the model keeps only its integer value, so texts with the same value
   * give the same payload.
   */
  datatype Part = Text(text: string) | Number(n: int) | Blob(file: File)

  datatype Entry = Entry(name: string, part: Part)

  /** The text fields of the payload, in the order they are appended. */
  const TextFieldNames: seq<string> :=
    ["title", "category", "price", "description", "location", "email", "phoneNumber"]

  function PricePart(price: Option<int>): Part {
    match price
    case Some(n) => Number(n)
    case None => Text("")
  }

  function TextEntries(v: FormValues): (entries: seq<Entry>)
    ensures |entries| == 7
    ensures forall k :: 0 <= k < 7 ==> entries[k].name == TextFieldNames[k]
  {
    [Entry("title", Text(v.title)),
     Entry("category", Text(v.category)),
     Entry("price", PricePart(v.price)),
     Entry("description", Text(v.description)),
     Entry("location", Text(v.location)),
     Entry("email", Text(v.email)),
     Entry("phoneNumber", Text(v.phoneNumber))]
  }

  /**
   * The payload as the handler builds it: the image entry is appended whenever the file
   * list exists, and a list with no file contributes `undefined`, which the multipart
   * form stores as the text "undefined".
   */
  function BuildPayloadAsWritten(v: FormValues): (entries: seq<Entry>)
    ensures |entries| == if v.image.Some? then 8 else 7
    ensures v.image.None? || HasFile(v.image) ==> entries == BuildPayload(v)
    ensures v.image == Some([]) ==> entries == BuildPayload(v) + [Entry("image", Text("undefined"))]
  {
    match v.image
    case None => TextEntries(v)
    case Some(files) =>
      TextEntries(v) + [Entry("image", if |files| > 0 then Blob(files[0]) else Text("undefined"))]
  }

  /** The payload with the image entry appended only when a file was chosen. */
  function BuildPayload(v: FormValues): (entries: seq<Entry>)
    ensures |entries| == if HasFile(v.image) then 8 else 7
    ensures forall k :: 0 <= k < 7 ==> entries[k].name == TextFieldNames[k]
    ensures HasFile(v.image) ==> entries[7] == Entry("image", Blob(v.image.value[0]))
  {
    if HasFile(v.image) then TextEntries(v) + [Entry("image", Blob(v.image.value[0]))]
    else TextEntries(v)
  }

  /** What the server receives: the seven fields and at most one file. */
  datatype Submission = Submission(
    title: string, category: Id, price: Option<int>, description: string,
    location: string, email: string, phoneNumber: string, image: Option<File>)

  /** The submission a form's values stand for: its first file, if any, is the image. */
  function Submitted(v: FormValues): Submission {
    Submission(v.title, v.category, v.price, v.description, v.location, v.email, v.phoneNumber,
               if HasFile(v.image) then Some(v.image.value[0]) else None)
  }

  function ReadPrice(p: Part): Option<Option<int>> {
    match p
    case Number(n) => Some(Some(n))
    case Text(t) => if t == "" then Some(None) else None
    case Blob(_) => None
  }

  /** Reads a payload back, as a server would; `None` for a payload of any other shape. */
  function DecodePayload(entries: seq<Entry>): (s: Option<Submission>)
    ensures s.Some? ==> |entries| == 7 || |entries| == 8
  {
    if !(|entries| == 7 || |entries| == 8) then None
    else if !(forall k :: 0 <= k < 7 ==> entries[k].name == TextFieldNames[k]) then None
    else if !(entries[0].part.Text? && entries[1].part.Text? && entries[3].part.Text?
              && entries[4].part.Text? && entries[5].part.Text? && entries[6].part.Text?) then None
    else if ReadPrice(entries[2].part).None? then None
    else if |entries| == 8 && !(entries[7].name == "image" && entries[7].part.Blob?) then None
    else Some(Submission(
      entries[0].part.text, entries[1].part.text, ReadPrice(entries[2].part).value,
      entries[3].part.text, entries[4].part.text, entries[5].part.text, entries[6].part.text,
      if |entries| == 8 then Some(entries[7].part.file) else None))
  }

  /** Form values that build exactly the payload of a submission. */
  function FormOf(s: Submission): FormValues {
    FormValues(s.title, s.category, s.price, s.description, s.location, s.email, s.phoneNumber,
               match s.image case Some(f) => Some([f]) case None => None)
  }

  /** Decoding a built payload recovers every field and the first file. */
  lemma DecodeBuildPayload(v: FormValues)
    ensures DecodePayload(BuildPayload(v)) == Some(Submitted(v))
  {
  }

  /** Every payload that decodes is the one built from the decoded values: the encoding is onto its image. */
  lemma BuildDecodedPayload(entries: seq<Entry>)
    requires DecodePayload(entries).Some?
    ensures BuildPayload(FormOf(DecodePayload(entries).value)) == entries
  {
    var s := DecodePayload(entries).value;
    var p := BuildPayload(FormOf(s));
    assert |p| == |entries|;
    forall k | 0 <= k < |entries|
      ensures p[k] == entries[k]
    {
      if k == 2 {
        assert entries[2].part == PricePart(s.price);
      }
    }
  }

  /** The store action the submit handler dispatches. */
  datatype Action =
    | CreateAnnouncement(data: seq<Entry>)
    | UpdateAnnouncement(data: seq<Entry>, id: Id)

  /** The route's `id` parameter is truthy: present and not empty. */
  predicate HasId(announcementId: Option<Id>) {
    announcementId.Some? && announcementId.value != ""
  }

  /** The submit handler: one payload, and an update exactly when the route carries an id. */
  function OnSubmit(v: FormValues, announcementId: Option<Id>): (a: Action)
    ensures a.data == BuildPayload(v)
    ensures a.UpdateAnnouncement? <==> HasId(announcementId)
    ensures a.CreateAnnouncement? <==> !HasId(announcementId)
    ensures a.UpdateAnnouncement? ==> a.id == announcementId.value
  {
    var data := BuildPayload(v);
    if HasId(announcementId) then UpdateAnnouncement(data, announcementId.value) else CreateAnnouncement(data)
  }

  /** The outcome of pressing the button: the field messages, or the dispatched action. */
  datatype SubmitOutcome = Blocked(errors: seq<FieldError>) | Dispatched(action: Action)

  /** The form library runs the handler only when every rule passes. */
  function HandleSubmit(v: FormValues, pathname: string, announcementId: Option<Id>,
                        emailPattern: string -> bool): (o: SubmitOutcome)
    ensures o.Dispatched? <==> Valid(v, pathname, emailPattern)
    ensures o.Dispatched? ==> o.action == OnSubmit(v, announcementId)
    ensures o.Blocked? ==> o.errors == Validate(v, pathname, emailPattern) && o.errors != []
  {
    var errors := Validate(v, pathname, emailPattern);
    if errors == [] then Dispatched(OnSubmit(v, announcementId)) else Blocked(errors)
  }

  /** Outside the update path every dispatched payload carries the chosen image. */
  lemma CreatePathCarriesImage(v: FormValues, pathname: string, announcementId: Option<Id>,
                               emailPattern: string -> bool)
    requires !("/update" <= pathname)
    requires HandleSubmit(v, pathname, announcementId, emailPattern).Dispatched?
    ensures var data := HandleSubmit(v, pathname, announcementId, emailPattern).action.data;
      |data| == 8 && data[7] == Entry("image", Blob(v.image.value[0]))
  {
    assert FieldOk(Image, v, pathname, emailPattern);
  }

  /**
   * As written, an update submitted without choosing a file passes validation and
   * sends the text "undefined" as its image; the corrected payload has no image entry.
   */
  lemma UpdateWithoutFileSendsUndefined(v: FormValues, pathname: string, announcementId: Option<Id>,
                                        emailPattern: string -> bool)
    requires v.image == Some([])
    requires "/update" <= pathname && HasId(announcementId)
    requires Valid(v, pathname, emailPattern)
    ensures HandleSubmit(v, pathname, announcementId, emailPattern)
      == Dispatched(UpdateAnnouncement(BuildPayload(v), announcementId.value))
    ensures BuildPayloadAsWritten(v)[7] == Entry("image", Text("undefined"))
    ensures BuildPayload(v) == BuildPayloadAsWritten(v)[..7]
  {
  }

  datatype SelectOption = SelectOption(caption: string, value: string)

  /** The fixed id of the "Any" pseudo-category. */
  const AnyCategoryId: Id := "62782d01909cc2389eb9e4c5"

  const AnyOption: SelectOption := SelectOption("Any", AnyCategoryId)

  /** The category select's options: "Any" first, then one option per category in order. */
  function SelectOptions(categories: seq<Category>): (options: seq<SelectOption>)
    ensures |options| == |categories| + 1
    ensures options[0] == AnyOption
    ensures forall i :: 0 <= i < |categories| ==>
      options[i + 1] == SelectOption(categories[i].name, categories[i].id)
  {
    [AnyOption] + seq(|categories|, i requires 0 <= i < |categories| =>
                        SelectOption(categories[i].name, categories[i].id))
  }

  function CategoryOf(o: SelectOption): Category {
    Category.Category(o.value, o.caption)
  }

  /** The categories recovered from the options after the sentinel is dropped. */
  function CategoriesOf(options: seq<SelectOption>): (cs: seq<Category>)
    ensures |cs| == |options|
  {
    seq(|options|, i requires 0 <= i < |options| => CategoryOf(options[i]))
  }

  /** Dropping the sentinel and reading back the options gives the categories. */
  lemma OptionsRoundTrip(categories: seq<Category>)
    ensures CategoriesOf(SelectOptions(categories)[1..]) == categories
  {
  }

  /** When no real category uses the sentinel id, only the first option selects "Any". */
  lemma SentinelUnique(categories: seq<Category>)
    requires forall i :: 0 <= i < |categories| ==> categories[i].id != AnyCategoryId
    ensures forall i :: 0 <= i < |SelectOptions(categories)| ==>
      (SelectOptions(categories)[i].value == AnyCategoryId <==> i == 0)
  {
    var options := SelectOptions(categories);
    forall i | 0 < i < |options|
      ensures options[i].value != AnyCategoryId
    {
      assert options[i] == SelectOption(categories[i - 1].name, categories[i - 1].id);
    }
  }

  /** The announcement store slots the page reads. */
  datatype Slots = Slots(
    current: Option<Announcement>,
    updated: Option<Announcement>,
    created: Option<Announcement>)

  const DetailPrefix: string := "/announcement/"

  /** The detail page route of an announcement. */
  function DetailPath(id: Id): (path: string)
    ensures DetailPrefix <= path
    ensures |path| == |DetailPrefix| + |id|
    ensures path[|DetailPrefix|..] == id
  {
    DetailPrefix + id
  }

  /** Recovers the id from a detail page route. */
  function DetailId(path: string): Option<Id> {
    if DetailPrefix <= path then Some(path[|DetailPrefix|..]) else None
  }

  lemma DetailPathRoundTrip(id: Id)
    ensures DetailId(DetailPath(id)) == Some(id)
  {
    assert DetailPath(id)[|DetailPrefix|..] == id;
  }

  /** The navigations the redirect effect makes, in order: updated first, then created. */
  function Redirects(s: Slots): (paths: seq<string>)
    ensures |paths| == (if s.updated.Some? then 1 else 0) + (if s.created.Some? then 1 else 0)
    ensures s.updated.Some? ==> DetailId(paths[0]) == Some(s.updated.value.id)
    ensures s.created.Some? ==> DetailId(paths[|paths| - 1]) == Some(s.created.value.id)
  {
    var first := if s.updated.Some? then [DetailPath(s.updated.value.id)] else [];
    var second := if s.created.Some? then [DetailPath(s.created.value.id)] else [];
    DetailPathRoundTrip(if s.updated.Some? then s.updated.value.id else "");
    DetailPathRoundTrip(if s.created.Some? then s.created.value.id else "");
    first + second
  }

  /** Where the page ends up: the last navigation, if any. */
  function RedirectTarget(s: Slots): (target: Option<string>)
    ensures target.None? <==> s.updated.None? && s.created.None?
    ensures s.created.Some? ==> DetailId(target.value) == Some(s.created.value.id)
    ensures s.created.None? && s.updated.Some? ==> DetailId(target.value) == Some(s.updated.value.id)
  {
    var paths := Redirects(s);
    if paths == [] then None else Some(paths[|paths| - 1])
  }

  /** The cleanup when the page is left: the current, updated and created slots are cleared. */
  function LeavePage(s: Slots): (s': Slots)
    ensures s'.current.None? && s'.updated.None? && s'.created.None?
  {
    Slots(None, None, None)
  }

  /** After leaving, a later visit starts without a pending redirect. */
  lemma LeavingCancelsRedirect(s: Slots)
    ensures Redirects(LeavePage(s)) == []
  {
  }

  /** The requests the page issues when it opens. */
  datatype Request = FetchCategories | FetchAnnouncement(id: Id)

  function MountRequests(categoryCount: nat, announcementId: Option<Id>): (rs: seq<Request>)
    ensures FetchCategories in rs <==> categoryCount == 0
    ensures (exists id :: FetchAnnouncement(id) in rs) <==> HasId(announcementId)
    ensures HasId(announcementId) ==> FetchAnnouncement(announcementId.value) in rs
    ensures |rs| == (if categoryCount == 0 then 1 else 0) + (if HasId(announcementId) then 1 else 0)
    ensures categoryCount == 0 ==> rs[0] == FetchCategories
    ensures forall r :: r in rs ==>
      r == FetchCategories || (HasId(announcementId) && r == FetchAnnouncement(announcementId.value))
  {
    var categories := if categoryCount == 0 then [FetchCategories] else [];
    var detail := if HasId(announcementId) then [FetchAnnouncement(announcementId.value)] else [];
    assert HasId(announcementId) ==> detail[0] in categories + detail;
    categories + detail
  }

  /** The default values made from a fetched announcement; the price is rendered as decimal text. */
  function PrefillValues(a: Announcement): (d: map<string, string>)
    ensures d.Keys == set k | k in TextFieldNames
    ensures d["title"] == a.title && d["category"] == a.category && d["description"] == a.description
    ensures d["location"] == a.location && d["email"] == a.email && d["phoneNumber"] == a.phoneNumber
    ensures Decimal.Parse(d["price"]) == Some(a.price)
  {
    Decimal.ParseShow(a.price);
    map["title" := a.title, "category" := a.category, "price" := Decimal.Show(a.price),
        "description" := a.description, "location" := a.location, "email" := a.email,
        "phoneNumber" := a.phoneNumber]
  }

  function Lookup(d: map<string, string>, key: string): string {
    if key in d then d[key] else ""
  }

  /** The form values that default values put into the inputs; the file input holds an empty list. */
  function FormFromDefaults(d: map<string, string>): FormValues {
    FormValues(Lookup(d, "title"), Lookup(d, "category"), Decimal.Parse(Lookup(d, "price")),
               Lookup(d, "description"), Lookup(d, "location"), Lookup(d, "email"),
               Lookup(d, "phoneNumber"), Some([]))
  }

  /** The stored default values and the values the form was last reset to. */
  datatype PrefillState = PrefillState(defaults: map<string, string>, form: map<string, string>)

  /** The prefill effect as written: the reset uses the defaults held before this update. */
  function PrefillAsWritten(s: PrefillState, current: Option<Announcement>): (s': PrefillState)
    ensures current.None? ==> s' == s
    ensures current.Some? ==> s'.defaults == PrefillValues(current.value) && s'.form == s.defaults
  {
    match current
    case None => s
    case Some(a) => PrefillState(PrefillValues(a), s.defaults)
  }

  /** The prefill effect resetting the form to the values of the fetched announcement. */
  function Prefill(s: PrefillState, current: Option<Announcement>): (s': PrefillState)
    ensures current.None? ==> s' == s
    ensures current.Some? ==> s'.defaults == s'.form == PrefillValues(current.value)
  {
    match current
    case None => s
    case Some(a) => var d := PrefillValues(a); PrefillState(d, d)
  }

  /** As written, the first announcement loaded resets the form to the empty defaults. */
  lemma FirstPrefillIsStale(a: Announcement)
    ensures PrefillAsWritten(PrefillState(map[], map[]), Some(a)).form == map[]
    ensures PrefillAsWritten(PrefillState(map[], map[]), Some(a)).form != PrefillValues(a)
  {
    assert "title" in PrefillValues(a);
  }

  /** Prefilling from an announcement and submitting unchanged sends that announcement's fields. */
  lemma PrefillThenSubmit(s: PrefillState, a: Announcement)
    ensures var v := FormFromDefaults(Prefill(s, Some(a)).form);
      DecodePayload(BuildPayload(v))
        == Some(Submission(a.title, a.category, Some(a.price), a.description, a.location,
                           a.email, a.phoneNumber, None))
  {
    var d := Prefill(s, Some(a)).form;
    assert "title" in d && "category" in d && "price" in d && "description" in d;
    assert "location" in d && "email" in d && "phoneNumber" in d;
    DecodeBuildPayload(FormFromDefaults(d));
  }
}
