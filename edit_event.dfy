/** The event edit form (src/pages/EditEvent.jsx): prefilling from the
    stored event, single-field updates, and the multipart payload sent on
    submit. */
module EditEvent {
  import opened Common

  /** The form state; its keys are, in insertion order, title, description,
      startTime, endTime and location. */
  datatype Form = Form(title: string, description: string, startTime: string, endTime: string, location: string)

  datatype FormField = Title | Description | StartTime | EndTime | Location

  /** `Object.keys(form)`. */
  const FieldOrder: seq<FormField> := [Title, Description, StartTime, EndTime, Location]

  /** The input `name` of a field, which is also its payload key. */
  function FieldName(f: FormField): string {
    match f
    case Title => "title"
    case Description => "description"
    case StartTime => "startTime"
    case EndTime => "endTime"
    case Location => "location"
  }

  function Get(form: Form, f: FormField): string {
    match f
    case Title => form.title
    case Description => form.description
    case StartTime => form.startTime
    case EndTime => form.endTime
    case Location => form.location
  }

  /** The event as `GET /api/events/:id` returns it. */
  datatype StoredEvent = StoredEvent(
    title: Option<string>,
    description: Option<string>,
    startTime: Option<string>,
    endTime: Option<string>,
    location: Option<string>)

  /** `datetime-local` inputs take the first 16 characters of the stored
      timestamp (`YYYY-MM-DDTHH:MM`). */
  const TimestampPrefix: nat := 16

  /** `ts ? ts.slice(0, 16) : ""`. */
  function LocalTime(ts: Option<string>): (r: string)
    ensures |r| <= TimestampPrefix
    ensures ts.Some? ==> r <= ts.value && |r| == (if |ts.value| < TimestampPrefix then |ts.value| else TimestampPrefix)
    ensures ts.None? ==> r == ""
  {
    if !Truthy(ts) then ""
    else if |ts.value| <= TimestampPrefix then ts.value
    else ts.value[..TimestampPrefix]
  }

  /** The `setForm` of `fetchEvent`. */
  function Prefill(ev: StoredEvent): (form: Form)
    ensures form.title == (if ev.title.Some? then ev.title.value else "")
    ensures form.description == (if ev.description.Some? then ev.description.value else "")
    ensures form.location == (if ev.location.Some? then ev.location.value else "")
    ensures form.startTime == LocalTime(ev.startTime) && form.endTime == LocalTime(ev.endTime)
  {
    Form(OrElse(ev.title, ""), OrElse(ev.description, ""),
         LocalTime(ev.startTime), LocalTime(ev.endTime), OrElse(ev.location, ""))
  }

  /** `handleChange`: `{ ...form, [name]: value }`. */
  function Update(form: Form, f: FormField, value: string): (r: Form)
    ensures Get(r, f) == value
    ensures forall g :: g != f ==> Get(r, g) == Get(form, g)
  {
    match f
    case Title => form.(title := value)
    case Description => form.(description := value)
    case StartTime => form.(startTime := value)
    case EndTime => form.(endTime := value)
    case Location => form.(location := value)
  }

  /** The chosen file, opaque to this page. */
  datatype File = File(name: string)

  datatype Part = TextPart(text: string) | FilePart(file: File)

  /** The key of the file part. */
  const AttachmentsKey := "attachments"

  /** `handleSubmit`'s `FormData`: one text part per form key in key order,
      then the file when one is chosen. */
  method BuildPayload(form: Form, file: Option<File>) returns (entries: seq<(string, Part)>)
    ensures |entries| == |FieldOrder| + (if file.Some? then 1 else 0)
    ensures forall i :: 0 <= i < |FieldOrder| ==>
      entries[i] == (FieldName(FieldOrder[i]), TextPart(Get(form, FieldOrder[i])))
    ensures file.Some? ==> entries[|FieldOrder|] == (AttachmentsKey, FilePart(file.value))
  {
    entries := [];
    var i := 0;
    while i < |FieldOrder|
      invariant 0 <= i <= |FieldOrder|
      invariant |entries| == i
      invariant forall j :: 0 <= j < i ==>
        entries[j] == (FieldName(FieldOrder[j]), TextPart(Get(form, FieldOrder[j])))
    {
      var key := FieldOrder[i];
      entries := entries + [(FieldName(key), TextPart(Get(form, key)))];
      i := i + 1;
    }
    if file.Some? {
      entries := entries + [(AttachmentsKey, FilePart(file.value))];
    }
  }

  /** The payload keys are distinct: every form field is sent exactly once,
      under its own name, and never as the attachment key. */
  lemma PayloadKeysDistinct()
    ensures forall i, j :: 0 <= i < j < |FieldOrder| ==> FieldName(FieldOrder[i]) != FieldName(FieldOrder[j])
    ensures forall f :: f in FieldOrder
    ensures forall f :: FieldName(f) != AttachmentsKey
  {
    forall f: FormField ensures f in FieldOrder {
      match f
      case Title => assert FieldOrder[0] == f;
      case Description => assert FieldOrder[1] == f;
      case StartTime => assert FieldOrder[2] == f;
      case EndTime => assert FieldOrder[3] == f;
      case Location => assert FieldOrder[4] == f;
    }
  }

  /** The page's state slots. */
  class EditEventPage {
    var form: Form
    var file: Option<File>
    var loading: bool

    constructor ()
      ensures form == Form("", "", "", "", "") && file.None? && !loading
    {
      form, file, loading := Form("", "", "", "", ""), None, false;
    }

    /** `fetchEvent`: on success the form is prefilled; on failure it stays. */
    method LoadEvent(response: Option<StoredEvent>)
      modifies this`form
      ensures form == if response.Some? then Prefill(response.value) else old(form)
    {
      if response.Some? {
        form := Prefill(response.value);
      }
    }

    method HandleChange(f: FormField, value: string)
      modifies this`form
      ensures form == Update(old(form), f, value)
    {
      form := Update(form, f, value);
    }

    method ChooseFile(chosen: Option<File>)
      modifies this`file
      ensures file == chosen
    {
      file := chosen;
    }

    /** The start of `handleSubmit`: `loading` is raised and the payload
        built from the current form and file. */
    method BeginSubmit() returns (entries: seq<(string, Part)>)
      modifies this`loading
      ensures loading
      ensures |entries| == |FieldOrder| + (if file.Some? then 1 else 0)
      ensures forall i :: 0 <= i < |FieldOrder| ==>
        entries[i] == (FieldName(FieldOrder[i]), TextPart(Get(form, FieldOrder[i])))
      ensures file.Some? ==> entries[|FieldOrder|] == (AttachmentsKey, FilePart(file.value))
    {
      loading := true;
      entries := BuildPayload(form, file);
    }

    /** The end of `handleSubmit`: `loading` is lowered on both paths, and
        the page navigates to the event list only after a successful update. */
    method FinishSubmit(succeeded: bool) returns (navigateTo: Option<string>)
      modifies this`loading
      ensures !loading
      ensures navigateTo == if succeeded then Some("/events") else None
    {
      loading := false;
      navigateTo := if succeeded then Some("/events") else None;
    }
  }
}
