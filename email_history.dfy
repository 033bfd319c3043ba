/** The email history page: the user's own logs, fetched once, shown a
    page at a time with a coloured action chip, a capitalised action label
    and a 150-character preview. */
module EmailHistory {

  import opened Js
  import Paging

  // ---------------------------------------------------------------------
  // Action chips

  /** The `sx` colours of a chip. */
  datatype ChipStyle = ChipStyle(bgcolor: string, color: string, borderColor: string)

  const GenerateStyle: ChipStyle := ChipStyle("rgba(37, 99, 235, 0.1)", "#2563eb", "#93c5fd")
  const RefineStyle: ChipStyle := ChipStyle("rgba(139, 92, 246, 0.1)", "#8b5cf6", "#c4b5fd")
  const SendStyle: ChipStyle := ChipStyle("rgba(5, 150, 105, 0.1)", "#059669", "#6ee7b7")
  const GreyStyle: ChipStyle := ChipStyle("rgba(75, 85, 99, 0.1)", "#4b5563", "#d1d5db")

  /** `getActionChipColor`: a `switch` with strict equality. */
  function ActionChipColor(action: string): (style: ChipStyle)
    ensures style == GreyStyle <==> action !in {"generate", "refine", "send"}
  {
    if action == "generate" then GenerateStyle
    else if action == "refine" then RefineStyle
    else if action == "send" then SendStyle
    else GreyStyle
  }

  /** The three known actions get three different styles. */
  lemma ChipStylesDistinct()
    ensures ActionChipColor("generate") != ActionChipColor("refine")
    ensures ActionChipColor("refine") != ActionChipColor("send")
    ensures ActionChipColor("generate") != ActionChipColor("send")
  {
    assert GenerateStyle.color[1] != RefineStyle.color[1];
    assert RefineStyle.color[1] != SendStyle.color[1];
    assert GenerateStyle.color[1] != SendStyle.color[1];
  }

  /** The actions the handlers actually log (`generated`, `refined`, `sent`)
      are none of the names the switch knows: every logged row gets the
      grey default. */
  lemma LoggedActionsAreGrey()
    ensures ActionChipColor("generated") == GreyStyle
    ensures ActionChipColor("refined") == GreyStyle
    ensures ActionChipColor("sent") == GreyStyle
  {
    assert "generated"[0] != "refine"[0] && "generated"[0] != "send"[0];
    assert "refined"[0] != "generate"[0] && "refined"[0] != "send"[0];
    assert "sent"[0] != "generate"[0] && "sent"[0] != "refine"[0] && "sent"[3] != "send"[3];
    assert |"generated"| == 9 && |"generate"| == 8;
    assert |"refined"| == 7 && |"refine"| == 6;
  }

  // ---------------------------------------------------------------------
  // Row text

  const PreviewLength: nat := 150

  /** `content.substring(0, 150)` followed by `...` when the content is
      longer: short content is shown whole, long content as its first 150
      characters and an ellipsis. */
  function Preview(content: string): (p: string)
    ensures |content| <= PreviewLength ==> p == content
    ensures |content| > PreviewLength ==> |p| == PreviewLength + 3
    ensures p[..Min(|content|, PreviewLength)] == content[..Min(|content|, PreviewLength)]
    ensures |content| > PreviewLength ==> p[PreviewLength..] == "..."
  {
    content[..Min(PreviewLength, |content|)] + (if |content| > PreviewLength then "..." else "")
  }

  /** `action.charAt(0).toUpperCase() + action.slice(1)`, with the first
      character upper-cased only when it is an ASCII letter. */
  function ActionLabel(action: string): (text: string)
    ensures |text| == |action|
    ensures |action| > 0 ==> text[0] == UpperChar(action[0]) && text[1..] == action[1..]
  {
    if action == [] then "" else [UpperChar(action[0])] + action[1..]
  }

  /** A log as the history endpoint returns it. */
  datatype LogRecord = LogRecord(id: int, action: string, emailContent: string, timestamp: string)

  /** A log with its `formattedTime`. */
  datatype FormattedLog = FormattedLog(log: LogRecord, formattedTime: string)

  /** `data.map(log => ({ ...log, formattedTime: format(log.timestamp) }))`,
      with the locale formatting as an oracle. */
  function FormatLogs(logs: seq<LogRecord>, format: string -> string): (r: seq<FormattedLog>)
    ensures |r| == |logs|
    ensures forall i :: 0 <= i < |logs| ==> r[i].log == logs[i] && r[i].formattedTime == format(logs[i].timestamp)
  {
    seq(|logs|, i requires 0 <= i < |logs| => FormattedLog(logs[i], format(logs[i].timestamp)))
  }

  // ---------------------------------------------------------------------
  // The page

  /** What the history request does: resolve with `response.data` (None
      when it is falsy, as an empty body is; an empty array is truthy and is
      Some([])), or reject with `err.response?.data?.error`. */
  datatype HistoryReply = Loaded(data: Option<seq<LogRecord>>) | LoadFailed(error: Option<string>)

  class HistoryPage {
    var logs: seq<FormattedLog>
    var loading: bool
    var error: Option<string>
    const pager: Paging.Pager

    constructor ()
      ensures logs == [] && loading && error == None
      ensures fresh(pager) && pager.page == 0 && pager.rowsPerPage == 10
    {
      logs, loading, error := [], true, None;
      pager := new Paging.Pager(10);
    }

    /** The rows on the current page. */
    function VisibleRows(): seq<FormattedLog>
      reads this, pager
    {
      pager.Visible(logs)
    }

    /** `fetchLogs`, with the request and the time formatting as oracles. */
    method FetchLogs(fetch: () -> HistoryReply, format: string -> string)
      modifies this`logs, this`loading, this`error
      ensures !loading
      ensures fetch().Loaded? && fetch().data.Some? ==>
        logs == FormatLogs(fetch().data.value, format) && error == old(error)
      ensures fetch().Loaded? && fetch().data.None? ==> logs == old(logs) && error == old(error)
      ensures fetch().LoadFailed? ==>
        && logs == old(logs)
        && error == Some(if fetch().error.Some? && fetch().error.value != "" then fetch().error.value
                         else "Failed to load email history")
    {
      loading := true;
      var reply := fetch();
      match reply {
        case Loaded(data) =>
          if data.Some? {
            logs := FormatLogs(data.value, format);
          }
        case LoadFailed(e) =>
          error := Some(if e.Some? && e.value != "" then e.value else "Failed to load email history");
      }
      loading := false;
    }
  }
}
