/**
 * The upload and process form (frontend/src/components/UploadPanel.tsx):
 * the configuration edits its inputs make, the first-file rule of the file
 * input, and the guards and texts of its two buttons. Every handler builds
 * a new configuration by copying the old one with one field replaced.
 */
module UploadPanel {
  import opened Wrappers
  import opened Types
  import Api

  /** `Math.max(1, Number(value) || 1)`: NaN and 0 are falsy and become 1 before the max. */
  function NormalizeEveryN(n: JsNumber): (r: real)
    ensures r >= 1.0
    ensures n.Num? && n.value >= 1.0 ==> r == n.value
    ensures (n.NaN? || n.value < 1.0) ==> r == 1.0
  {
    var orOne := if n.NaN? || n.value == 0.0 then 1.0 else n.value;
    if orOne < 1.0 then 1.0 else orOne
  }

  /** A value already normalised passes through the normalisation unchanged. */
  lemma NormalizeEveryNIdempotent(n: JsNumber)
    ensures NormalizeEveryN(Num(NormalizeEveryN(n))) == NormalizeEveryN(n)
  {
  }

  /** One `onChange` of the form. The model and resolution selects offer only their listed options. */
  datatype ConfigEdit =
    | SetModel(model: PoseModel)
    | SetEveryN(input: JsNumber)
    | SetResolution(resolution: OutputResolution)
    | SetSave(checked: bool)

  /** `{ ...config, <field>: <new value> }`. */
  function ApplyEdit(config: StartProcessConfig, edit: ConfigEdit): (next: StartProcessConfig)
    ensures edit.SetModel? ==> next.model == edit.model
    ensures edit.SetEveryN? ==> next.everyNFrames == NormalizeEveryN(edit.input) && next.everyNFrames >= 1.0
    ensures edit.SetResolution? ==> next.outputResolution == edit.resolution
    ensures edit.SetSave? ==> next.saveIntermediateFrames == edit.checked
    ensures !edit.SetModel? ==> next.model == config.model
    ensures !edit.SetEveryN? ==> next.everyNFrames == config.everyNFrames
    ensures !edit.SetResolution? ==> next.outputResolution == config.outputResolution
    ensures !edit.SetSave? ==> next.saveIntermediateFrames == config.saveIntermediateFrames
  {
    match edit
    case SetModel(m) => config.(model := m)
    case SetEveryN(n) => config.(everyNFrames := NormalizeEveryN(n))
    case SetResolution(r) => config.(outputResolution := r)
    case SetSave(b) => config.(saveIntermediateFrames := b)
  }

  /** The field an edit writes. */
  function FieldOf(edit: ConfigEdit): nat {
    match edit
    case SetModel(_) => 0
    case SetEveryN(_) => 1
    case SetResolution(_) => 2
    case SetSave(_) => 3
  }

  function ApplyEdits(config: StartProcessConfig, edits: seq<ConfigEdit>): StartProcessConfig
    decreases |edits|
  {
    if edits == [] then config else ApplyEdits(ApplyEdit(config, edits[0]), edits[1..])
  }

  /** Once `every_n_frames` is at least 1, no sequence of edits brings it below 1. */
  lemma {:induction false} EditsKeepEveryNValid(config: StartProcessConfig, edits: seq<ConfigEdit>)
    requires config.everyNFrames >= 1.0
    ensures ApplyEdits(config, edits).everyNFrames >= 1.0
    decreases |edits|
  {
    if edits != [] {
      EditsKeepEveryNValid(ApplyEdit(config, edits[0]), edits[1..]);
    }
  }

  /** Edits of different fields commute. */
  lemma EditsOfDistinctFieldsCommute(config: StartProcessConfig, e1: ConfigEdit, e2: ConfigEdit)
    requires FieldOf(e1) != FieldOf(e2)
    ensures ApplyEdit(ApplyEdit(config, e1), e2) == ApplyEdit(ApplyEdit(config, e2), e1)
  {
  }

  /** Of two edits of the same field, the later one wins. */
  lemma LaterEditWins(config: StartProcessConfig, e1: ConfigEdit, e2: ConfigEdit)
    requires FieldOf(e1) == FieldOf(e2)
    ensures ApplyEdit(ApplyEdit(config, e1), e2) == ApplyEdit(config, e2)
  {
  }

  /** `handleFileInput`: the first selected file, or none when the list is missing or empty. */
  function SelectedFile(files: Option<seq<Api.FileRef>>): (r: Option<Api.FileRef>)
    ensures r.Some? <==> files.Some? && |files.value| > 0
    ensures r.Some? ==> r.value == files.value[0]
  {
    if files.Some? && |files.value| > 0 then Some(files.value[0]) else None
  }

  /** What the panel shows for its props. */
  datatype PanelView = PanelView(
    uploadDisabled: bool,
    uploadLabel: string,
    hint: string,
    videoIdText: string,
    processDisabled: bool,
    processLabel: string)

  /** `!videoId`: null and the empty string are both falsy. */
  predicate NoVideoId(videoId: Option<string>) {
    videoId.None? || videoId.value == ""
  }

  function View(file: Option<Api.FileRef>, videoId: Option<string>, uploadLoading: bool, processLoading: bool): (v: PanelView)
    ensures v.uploadDisabled <==> file.None? || uploadLoading
    ensures v.processDisabled <==> videoId.None? || videoId.value == "" || processLoading
    ensures v.videoIdText == (if videoId.Some? then videoId.value else "-")
    ensures v.hint == (if file.Some? then file.value.name else "No file selected")
    ensures v.uploadLabel == (if uploadLoading then "Uploading..." else "Upload")
    ensures v.processLabel == (if processLoading then "Starting..." else "Process")
  {
    PanelView(
      file.None? || uploadLoading,
      if uploadLoading then "Uploading..." else "Upload",
      match file case Some(f) => f.name case None => "No file selected",
      match videoId case Some(id) => id case None => "-",
      NoVideoId(videoId) || processLoading,
      if processLoading then "Starting..." else "Process")
  }

  /** Choosing no file (or an empty list) leaves Upload disabled; choosing one enables it when idle. */
  lemma UploadFollowsFileInput(files: Option<seq<Api.FileRef>>, videoId: Option<string>, processLoading: bool)
    ensures View(SelectedFile(files), videoId, false, processLoading).uploadDisabled
      <==> files.None? || files.value == []
  {
  }

  /**
   * The Video ID box uses `??`, which only replaces null: an empty id is shown
   * as empty text, yet the Process guard, which tests truthiness, treats it like no id.
   */
  lemma EmptyVideoIdShownButDisabled(file: Option<Api.FileRef>, uploadLoading: bool)
    ensures View(file, Some(""), uploadLoading, false).videoIdText == ""
    ensures View(file, None, uploadLoading, false).videoIdText == "-"
    ensures View(file, Some(""), uploadLoading, false).processDisabled
    ensures View(file, None, uploadLoading, false).processDisabled
    ensures !View(file, Some("v1"), uploadLoading, false).processDisabled
  {
  }
}
