/** The client workflow of the `App` component: its state hooks become the fields of
    a class and its event handlers become methods. Every HTTP call is replaced by the
    outcome it resolves to, and every suspension point (`await`) by the sequence of
    push-channel messages, and upload progress callbacks, that arrive while it is
    pending. The outbound requests are recorded in order in `requests`. */
module Workflow {
  import opened RunConfig
  import opened Progress
  import opened Roster
  import opened Transcript

  datatype Option<T> = None | Some(value: T)

  /** How an awaited HTTP call settles: resolved with its response data, or rejected. */
  datatype Outcome<T> = Ok(value: T) | Failed

  /** The spreadsheet chosen in the file input; its contents are opaque here. */
  datatype FileHandle = FileHandle(name: string)

  /** A request sent to the backend. */
  datatype Request =
    | PostUpload(file: FileHandle)     // POST /upload
    | GetMnemonics                     // GET /mnemonics
    | PostSetConfig(config: Config)    // POST /set-config
    | GetExecute                       // GET /execute

  const UploadFailedText: string := "File upload failed."
  const ExecutionFailedText: string := "Execution failed."

  /** The lines the execute handler and the push channel add to the cleared log,
      in arrival order: the messages that arrive during the config call, then the
      config acknowledgment or, if that call failed, the failure text and nothing
      more; otherwise the messages that arrive during the execute call, then its
      acknowledgment or the failure text. */
  function ExecuteLines(configRes: Outcome<string>, duringConfig: seq<string>,
                        executeRes: Outcome<string>, duringExecute: seq<string>): (r: seq<string>)
    ensures |r| == |duringConfig| + 1 + (if configRes.Ok? then |duringExecute| + 1 else 0)
    ensures r[..|duringConfig|] == duringConfig
    ensures configRes.Ok? ==> r[|duringConfig|] == configRes.value
    ensures configRes.Ok? ==> r[|duringConfig| + 1 .. |r| - 1] == duringExecute
    ensures r[|r| - 1] == if configRes.Ok? && executeRes.Ok? then executeRes.value else ExecutionFailedText
  {
    match configRes
    case Failed => duringConfig + [ExecutionFailedText]
    case Ok(ack) =>
      duringConfig + [ack] + duringExecute
        + [if executeRes.Ok? then executeRes.value else ExecutionFailedText]
  }

  /** Without interleaved push messages the log after an execution is the config
      acknowledgment and the execute acknowledgment, each after a newline, or the
      failure text in place of whichever call failed first. */
  lemma QuietExecutionLog(configRes: Outcome<string>, executeRes: Outcome<string>)
    ensures AppendAll("", ExecuteLines(configRes, [], executeRes, [])) ==
      match configRes
      case Failed => "\n" + ExecutionFailedText
      case Ok(ack) =>
        match executeRes
        case Failed => "\n" + ack + "\n" + ExecutionFailedText
        case Ok(started) => "\n" + ack + "\n" + started
  {
    var last := if executeRes.Ok? then executeRes.value else ExecutionFailedText;
    match configRes
    case Failed =>
      assert ExecuteLines(configRes, [], executeRes, []) == [ExecutionFailedText];
      AppendAllSmall(ExecutionFailedText, last);
    case Ok(ack) =>
      assert ExecuteLines(configRes, [], executeRes, []) == [ack, last];
      AppendAllSmall(ack, last);
  }

  class App {
    var file: Option<FileHandle>
    var uploadProgress: int
    var uploadSuccess: bool
    var mnemonicList: seq<string>
    var batchSize: Field
    var maxTransactionCount: Field
    var maxFailureCount: Field
    var log: string
    var loading: bool
    /** Every request sent so far, oldest first. */
    var requests: seq<Request>

    /** Holds whenever no handler is suspended: the progress is a percentage and
        no execution is in flight. */
    ghost predicate Valid()
      reads this
    {
      0 <= uploadProgress <= 100 && !loading
    }

    /** The initial state of the hooks. */
    constructor ()
      ensures Valid()
      ensures file == None && uploadProgress == 0 && !uploadSuccess && mnemonicList == []
      ensures batchSize == Num(InitialBatchSize)
      ensures maxTransactionCount == Num(InitialMaxTransactionCount)
      ensures maxFailureCount == Num(InitialMaxFailureCount)
      ensures log == "" && !loading && requests == []
    {
      file := None;
      uploadProgress := 0;
      uploadSuccess := false;
      mnemonicList := [];
      batchSize := Num(InitialBatchSize);
      maxTransactionCount := Num(InitialMaxTransactionCount);
      maxFailureCount := Num(InitialMaxFailureCount);
      log := "";
      loading := false;
      requests := [];
    }

    /** A push-channel message: the log gets a newline and the message, and the
        previous log stays its prefix. */
    method OnMessage(data: string)
      modifies this`log
      ensures log == Append(old(log), data)
    {
      log := log + "\n" + data;
    }

    /** The messages that arrive while a handler is suspended, delivered in order. */
    method DeliverMessages(msgs: seq<string>)
      modifies this`log
      ensures log == AppendAll(old(log), msgs)
    {
      var i := 0;
      while i < |msgs|
        invariant 0 <= i <= |msgs|
        invariant log == AppendAll(old(log), msgs[..i])
      {
        AppendAllSnoc(old(log), msgs[..i], msgs[i]);
        assert msgs[..i] + [msgs[i]] == msgs[..i + 1];
        OnMessage(msgs[i]);
        i := i + 1;
      }
      assert msgs[..i] == msgs;
    }

    /** One upload progress callback: the rounded percentage overwrites the previous one. */
    method OnUploadProgress(e: Event)
      requires WellFormed(e)
      modifies this`uploadProgress
      ensures uploadProgress == Percent(e.loaded, e.total)
      ensures 0 <= uploadProgress <= 100
    {
      PercentInRange(e.loaded, e.total);
      uploadProgress := Percent(e.loaded, e.total);
    }

    /** The progress callbacks of one transfer, in order: the last one wins. */
    method DeliverProgress(events: seq<Event>)
      requires forall i :: 0 <= i < |events| ==> WellFormed(events[i])
      requires 0 <= uploadProgress <= 100
      modifies this`uploadProgress
      ensures uploadProgress == AfterEvents(old(uploadProgress), events)
      ensures 0 <= uploadProgress <= 100
    {
      for i := 0 to |events|
        invariant uploadProgress == AfterEvents(old(uploadProgress), events[..i])
        invariant 0 <= uploadProgress <= 100
      {
        OnUploadProgress(events[i]);
        assert events[..i + 1][i] == events[i];
      }
      assert events[..|events|] == events;
    }

    /** `handleFileChange`: store the chosen file (none when the dialog was
        cancelled) and reset the progress, the success flag and the roster. */
    method HandleFileChange(chosen: Option<FileHandle>)
      requires Valid()
      modifies this`file, this`uploadProgress, this`uploadSuccess, this`mnemonicList
      ensures Valid()
      ensures file == chosen && uploadProgress == 0 && !uploadSuccess && mnemonicList == []
    {
      file := chosen;
      uploadProgress := 0;
      uploadSuccess := false;
      mnemonicList := [];
    }

    /** The change handlers of the three numeric inputs store the input's text. */
    method SetBatchSize(text: string)
      modifies this`batchSize
      ensures batchSize == Text(text)
    {
      batchSize := Text(text);
    }

    method SetMaxTransactionCount(text: string)
      modifies this`maxTransactionCount
      ensures maxTransactionCount == Text(text)
    {
      maxTransactionCount := Text(text);
    }

    method SetMaxFailureCount(text: string)
      modifies this`maxFailureCount
      ensures maxFailureCount == Text(text)
    {
      maxFailureCount := Text(text);
    }

    /** `handleUpload`. Without a file nothing happens. Otherwise the file is posted
        (`progress` and `duringPost` arrive while that is pending), the log is
        REPLACED by the response text and the success flag set, then the roster is
        fetched (`duringRoster` arrive meanwhile) and stored. Either call failing
        replaces the log by the failure text and clears the success flag; the roster
        is then left as it was. The progress is never reset here. */
    method HandleUpload(progress: seq<Event>, post: Outcome<string>, duringPost: seq<string>,
                        roster: Outcome<seq<string>>, duringRoster: seq<string>)
      requires Valid()
      requires forall i :: 0 <= i < |progress| ==> WellFormed(progress[i])
      modifies this
      ensures Valid()
      ensures old(file) == None ==>
        uploadProgress == old(uploadProgress) && uploadSuccess == old(uploadSuccess) &&
        mnemonicList == old(mnemonicList) && log == old(log) && requests == old(requests)
      ensures old(file) != None ==>
        requests == old(requests) + [PostUpload(old(file).value)] + (if post.Ok? then [GetMnemonics] else [])
      ensures old(file) != None ==> uploadProgress == AfterEvents(old(uploadProgress), progress)
      ensures old(file) != None && post.Ok? && roster.Ok? ==>
        uploadSuccess && log == AppendAll(post.value, duringRoster) && mnemonicList == roster.value
      ensures old(file) != None && post.Ok? && roster.Ok? && duringRoster == [] ==> log == post.value
      ensures old(file) != None && !(post.Ok? && roster.Ok?) ==>
        !uploadSuccess && log == UploadFailedText && mnemonicList == old(mnemonicList)
      ensures file == old(file) && loading == old(loading)
      ensures batchSize == old(batchSize) && maxTransactionCount == old(maxTransactionCount)
      ensures maxFailureCount == old(maxFailureCount)
    {
      if file == None {
        return;
      }
      requests := requests + [PostUpload(file.value)];
      DeliverProgress(progress);
      DeliverMessages(duringPost);
      match post {
        case Failed =>
          log := UploadFailedText;
          uploadSuccess := false;
        case Ok(text) =>
          log := text;
          uploadSuccess := true;
          requests := requests + [GetMnemonics];
          DeliverMessages(duringRoster);
          match roster {
            case Failed =>
              log := UploadFailedText;
              uploadSuccess := false;
            case Ok(list) =>
              mnemonicList := list;
          }
      }
    }

    /** `handleExecute`. Unless the last upload succeeded nothing happens. Otherwise
        the log is cleared and `loading` raised, the configuration built from the
        inputs is posted (`duringConfig` arrive meanwhile) and its acknowledgment
        appended; only then is the run started (`duringExecute` arrive meanwhile)
        and its acknowledgment appended. A failed call appends the failure text
        instead and sends nothing further. `loading` is lowered at the end in every case. */
    method HandleExecute(configRes: Outcome<string>, duringConfig: seq<string>,
                         executeRes: Outcome<string>, duringExecute: seq<string>)
      requires Valid()
      modifies this`loading, this`log, this`requests
      ensures Valid()
      ensures !old(uploadSuccess) ==> log == old(log) && requests == old(requests)
      ensures old(uploadSuccess) && configRes.Failed? ==>
        requests == old(requests) + [PostSetConfig(BuildConfig(batchSize, maxTransactionCount, maxFailureCount))]
      ensures old(uploadSuccess) && configRes.Ok? ==>
        requests == old(requests) + [PostSetConfig(BuildConfig(batchSize, maxTransactionCount, maxFailureCount))] + [GetExecute]
      ensures old(uploadSuccess) ==>
        log == AppendAll("", ExecuteLines(configRes, duringConfig, executeRes, duringExecute))
    {
      if !uploadSuccess {
        return;
      }
      loading := true;
      log := "";
      var config := BuildConfig(batchSize, maxTransactionCount, maxFailureCount);
      requests := requests + [PostSetConfig(config)];
      DeliverMessages(duringConfig);
      ghost var arrived := duringConfig;
      match configRes {
        case Failed =>
          assert Append(log, ExecutionFailedText) == AppendAll("", arrived + [ExecutionFailedText]) by {
            AppendAllSnoc("", arrived, ExecutionFailedText);
          }
          log := Append(log, ExecutionFailedText);
          arrived := arrived + [ExecutionFailedText];
        case Ok(ack) =>
          assert Append(log, ack) == AppendAll("", arrived + [ack]) by {
            AppendAllSnoc("", arrived, ack);
          }
          log := Append(log, ack);
          arrived := arrived + [ack];
          requests := requests + [GetExecute];
          DeliverMessages(duringExecute);
          assert log == AppendAll("", arrived + duringExecute) by {
            AppendAllTwice("", arrived, duringExecute);
          }
          arrived := arrived + duringExecute;
          var last := if executeRes.Ok? then executeRes.value else ExecutionFailedText;
          assert Append(log, last) == AppendAll("", arrived + [last]) by {
            AppendAllSnoc("", arrived, last);
          }
          log := Append(log, last);
          arrived := arrived + [last];
      }
      assert arrived == ExecuteLines(configRes, duringConfig, executeRes, duringExecute);
      loading := false;
    }
  }
}
