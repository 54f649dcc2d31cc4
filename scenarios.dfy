/** Client runs of the workflow that fix every outcome and message, showing what the
    handlers' contracts alone let a caller conclude. */
module Scenarios {
  import opened RunConfig
  import opened Progress
  import opened Roster
  import opened Transcript
  import opened Workflow

  /** A file is chosen and uploaded while progress climbs to 100; the roster fetch
      returns 18 entries. The preview lists 15 of them, shows the `...` item and
      counts 18. */
  method EighteenEntryUpload() returns (preview: Preview, progress: int, success: bool, log: string)
    ensures preview == Preview(seq(15, _ => "m"), true, 18)
    ensures progress == 100 && success && log == "uploaded"
  {
    var app := new App();
    app.HandleFileChange(Some(FileHandle("accounts.xlsx")));
    var roster := seq(18, _ => "m");
    app.HandleUpload([Event(0, 200), Event(100, 200), Event(200, 200)], Ok("uploaded"), ["ignored"],
                     Ok(roster), []);
    PercentEnds(200);
    EighteenEntries(roster);
    assert roster[..15] == seq(15, _ => "m");
    preview, progress, success, log := PreviewOf(app.mnemonicList), app.uploadProgress, app.uploadSuccess, app.log;
  }

  /** The upload is rejected: the log holds exactly the failure text, the execute
      button stays disabled and executing anyway sends nothing. */
  method FailedUpload() returns (log: string, executeEnabled: bool, sent: seq<Request>)
    ensures log == UploadFailedText && !executeEnabled
    ensures sent == [PostUpload(FileHandle("accounts.xlsx"))]
  {
    var app := new App();
    app.HandleFileChange(Some(FileHandle("accounts.xlsx")));
    app.HandleUpload([Event(50, 200)], Failed, ["server log line"], Failed, []);
    app.HandleExecute(Ok("config set"), [], Ok("started"), []);
    log, executeEnabled, sent := app.log, !app.loading && app.uploadSuccess, app.requests;
  }

  /** Uploading again without choosing a new file, when the second post fails,
      clears the success flag but keeps the roster of the first upload: a roster
      can be non-empty while the upload is marked as not successful. */
  method StaleRoster() returns (success: bool, roster: seq<string>)
    ensures !success && roster == ["m1", "m2"]
  {
    var app := new App();
    app.HandleFileChange(Some(FileHandle("accounts.xlsx")));
    app.HandleUpload([], Ok("uploaded"), [], Ok(["m1", "m2"]), []);
    app.HandleUpload([], Failed, [], Failed, []);
    success, roster := app.uploadSuccess, app.mnemonicList;
  }

  /** All three inputs are cleared before executing: the configuration sent is
      2 / 3 / 1, the run is started only after it was acknowledged, and the log
      is the two acknowledgments. */
  method ClearedInputsRun() returns (sent: seq<Request>, log: string, loading: bool)
    ensures sent == [PostUpload(FileHandle("accounts.xlsx")), GetMnemonics,
                     PostSetConfig(Config(Num(2), Num(3), Num(1))), GetExecute]
    ensures log == "\nconfig set\nstarted" && !loading
  {
    var app := new App();
    var file := FileHandle("accounts.xlsx");
    app.HandleFileChange(Some(file));
    app.HandleUpload([Event(10, 10)], Ok("uploaded"), [], Ok(["m1"]), []);
    assert app.requests == [PostUpload(file)] + [GetMnemonics];
    app.SetBatchSize("");
    app.SetMaxTransactionCount("");
    app.SetMaxFailureCount("");
    app.HandleExecute(Ok("config set"), [], Ok("started"), []);
    assert app.requests == [PostUpload(file)] + [GetMnemonics] + [PostSetConfig(Config(Num(2), Num(3), Num(1)))] + [GetExecute] by {
      FalsyInputsUseFallbacks();
    }
    assert app.log == "\nconfig set\nstarted" by {
      QuietExecutionLog(Ok("config set"), Ok("started"));
      assert app.log == "\n" + "config set" + "\n" + "started";
    }
    sent, log, loading := app.requests, app.log, app.loading;
  }

  /** A push message that arrives while the configuration is being posted lands
      before the acknowledgment; one that arrives afterwards is appended after the
      run's acknowledgment. Reading the log back line by line gives them in
      arrival order. */
  method InterleavedPush() returns (lines: seq<string>)
    ensures lines == ["", "batch 1 begins", "config set", "started", "batch 1 done"]
  {
    var app := new App();
    app.HandleFileChange(Some(FileHandle("accounts.xlsx")));
    app.HandleUpload([], Ok("uploaded"), [], Ok(["m1"]), []);
    app.HandleExecute(Ok("config set"), ["batch 1 begins"], Ok("started"), []);
    app.OnMessage("batch 1 done");
    var arrived := ["batch 1 begins", "config set", "started", "batch 1 done"];
    assert ExecuteLines(Ok("config set"), ["batch 1 begins"], Ok("started"), []) == arrived[..3];
    AppendAllSnoc("", arrived[..3], "batch 1 done");
    assert arrived[..3] + ["batch 1 done"] == arrived;
    TranscriptReadsBack(arrived);
    lines := Split(app.log);
  }
}
