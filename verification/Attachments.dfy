/**
 Converting the attachments of a message: what is uploaded, what is reused, what is reported as
 skipped, and where the ten-file limit cuts in.
 */
module Attachments {
  import opened Common

  const MAX_FILE_ATTACHMENTS: nat := 10

  /** An attachment, with what the calls made for it would answer. */
  datatype Attachment = Attachment(
    contentType: string,
    name: string,
    rendered: string -> string,         // what a code snippet or a card makes of the text
    parentId: string,                   // the post that a message reference replies to
    hosted: bool,                       // downloaded through the hosted content link
    hostedContent: Option<seq<int>>,    // None: the download fails
    sizeAndURL: Option<nat>,            // None: the lookup fails; otherwise the file size
    content: Option<seq<int>>,          // the complete download of a small file
    processed: (string, bool),          // upload of content: file id or "", and whether the image is too large
    streamed: string)                   // upload through a stream: file id, "" for failure

  /** Limits from the configuration, in bytes. */
  datatype Limits = Limits(maxFileSize: nat, maxCompleteDownload: nat)

  /** What becomes of an attachment that is visited. */
  datatype Fate = NotAFile | Reused(fileId: string) | Failed | Uploaded(fileId: string)

  const CODE_SNIPPET := "application/vnd.microsoft.card.codesnippet"
  const MESSAGE_REFERENCE := "messageReference"
  const ADAPTIVE_CARD := "application/vnd.microsoft.card.adaptive"

  /** A code snippet or a card, which becomes part of the text. */
  predicate IsRendered(a: Attachment) {
    a.contentType == CODE_SNIPPET || a.contentType == ADAPTIVE_CARD
  }

  predicate IsFile(a: Attachment) {
    a.contentType == "reference"
  }

  /** The content in memory, if it is downloaded whole. */
  function Downloaded(a: Attachment, limits: Limits): Option<seq<int>> {
    if a.hosted then a.hostedContent
    else if a.sizeAndURL.Some? && a.sizeAndURL.value <= limits.maxCompleteDownload then a.content
    else None
  }

  /** The download or the size check fails before anything is uploaded. */
  predicate DownloadFails(a: Attachment, limits: Limits) {
    if a.hosted then a.hostedContent.None?
    else
      || a.sizeAndURL.None?
      || a.sizeAndURL.value > limits.maxFileSize
      || (a.sizeAndURL.value <= limits.maxCompleteDownload && a.content.None?)
  }

  function FateOf(a: Attachment, fileNames: map<string, string>, limits: Limits): Fate {
    if !IsFile(a) then NotAFile
    else if a.name in fileNames && fileNames[a.name] != "" then Reused(fileNames[a.name])
    else if DownloadFails(a, limits) then Failed
    else
      var id := if Downloaded(a, limits).Some? then a.processed.0 else a.streamed;
      if id == "" then Failed else Uploaded(id)
  }

  function Fates(attachments: seq<Attachment>, fileNames: map<string, string>, limits: Limits): (r: seq<Fate>)
    ensures |r| == |attachments|
    ensures forall i :: 0 <= i < |r| ==> r[i] == FateOf(attachments[i], fileNames, limits)
  {
    seq(|attachments|, i requires 0 <= i < |attachments| => FateOf(attachments[i], fileNames, limits))
  }

  // Four counts over a prefix of the fates.

  function NonFiles(fates: seq<Fate>): nat {
    if fates == [] then 0 else NonFiles(fates[..|fates| - 1]) + (if fates[|fates| - 1].NotAFile? then 1 else 0)
  }

  function ReusedFiles(fates: seq<Fate>): nat {
    if fates == [] then 0 else ReusedFiles(fates[..|fates| - 1]) + (if fates[|fates| - 1].Reused? then 1 else 0)
  }

  function Failures(fates: seq<Fate>): nat {
    if fates == [] then 0 else Failures(fates[..|fates| - 1]) + (if fates[|fates| - 1].Failed? then 1 else 0)
  }

  function Uploads(fates: seq<Fate>): nat {
    if fates == [] then 0 else Uploads(fates[..|fates| - 1]) + (if fates[|fates| - 1].Uploaded? then 1 else 0)
  }

  /** The file ids of the post. */
  function FileIds(fates: seq<Fate>): seq<string> {
    if fates == [] then []
    else
      var last := fates[|fates| - 1];
      FileIds(fates[..|fates| - 1]) + (if last.Reused? || last.Uploaded? then [last.fileId] else [])
  }

  /** Every visited attachment has one fate. */
  lemma {:induction false} FatesPartition(fates: seq<Fate>)
    ensures NonFiles(fates) + ReusedFiles(fates) + Failures(fates) + Uploads(fates) == |fates|
    ensures |FileIds(fates)| == ReusedFiles(fates) + Uploads(fates)
  {
    if fates != [] { FatesPartition(fates[..|fates| - 1]); }
  }

  /** How many attachments are visited: all, or up to and including the tenth upload. */
  function Visited(fates: seq<Fate>, from: nat): (n: nat)
    requires from <= |fates|
    ensures from <= n <= |fates|
    decreases |fates| - from
  {
    if from == |fates| then from
    else if fates[from].Uploaded? && Uploads(fates[..from + 1]) == MAX_FILE_ATTACHMENTS then from + 1
    else Visited(fates, from + 1)
  }

  /** The number that is reported as skipped. */
  function Skipped(fates: seq<Fate>): int {
    var seen := fates[..Visited(fates, 0)];
    if Uploads(seen) == MAX_FILE_ATTACHMENTS
    then Failures(seen) + |fates| - NonFiles(seen) - MAX_FILE_ATTACHMENTS
    else Failures(seen)
  }

  lemma UploadsSnoc(fates: seq<Fate>, n: nat)
    requires n < |fates|
    ensures Uploads(fates[..n + 1]) == Uploads(fates[..n]) + (if fates[n].Uploaded? then 1 else 0)
    ensures NonFiles(fates[..n + 1]) == NonFiles(fates[..n]) + (if fates[n].NotAFile? then 1 else 0)
    ensures Failures(fates[..n + 1]) == Failures(fates[..n]) + (if fates[n].Failed? then 1 else 0)
    ensures FileIds(fates[..n + 1])
            == FileIds(fates[..n]) + (if fates[n].Reused? || fates[n].Uploaded? then [fates[n].fileId] else [])
  {
    assert fates[..n + 1][..n] == fates[..n];
  }

  /** Below the limit everything is visited; at the limit the visit stops with the tenth upload. */
  lemma {:induction false} VisitedBound(fates: seq<Fate>, from: nat)
    requires from <= |fates| && Uploads(fates[..from]) < MAX_FILE_ATTACHMENTS
    ensures var n := Visited(fates, from);
            && Uploads(fates[..n]) <= MAX_FILE_ATTACHMENTS
            && (Uploads(fates[..n]) < MAX_FILE_ATTACHMENTS ==> n == |fates|)
            && (Uploads(fates[..n]) == MAX_FILE_ATTACHMENTS ==> 0 < n && fates[n - 1].Uploaded?)
    decreases |fates| - from
  {
    if from < |fates| {
      UploadsSnoc(fates, from);
      if !(fates[from].Uploaded? && Uploads(fates[..from + 1]) == MAX_FILE_ATTACHMENTS) {
        VisitedBound(fates, from + 1);
      }
    }
  }

  /** ACCOUNTING. Never more than ten uploads. Without the limit, the four fates add up to the number of
      attachments and skipped counts exactly the failures. With it, skipped counts every failure twice
      and every reused file once on top of the unvisited attachments. */
  lemma AccountingHolds(fates: seq<Fate>)
    ensures var n := Visited(fates, 0);
            var seen := fates[..n];
            && Uploads(seen) <= MAX_FILE_ATTACHMENTS
            && (Uploads(seen) < MAX_FILE_ATTACHMENTS ==>
                  && n == |fates|
                  && NonFiles(seen) + ReusedFiles(seen) + Uploads(seen) + Skipped(fates) == |fates|)
            && (Uploads(seen) == MAX_FILE_ATTACHMENTS ==>
                  Skipped(fates) == 2 * Failures(seen) + ReusedFiles(seen) + (|fates| - n))
            && Skipped(fates) >= Failures(seen) + (|fates| - n)
  {
    VisitedBound(fates, 0);
    FatesPartition(fates[..Visited(fates, 0)]);
  }

  /** NOTHING SKIPPED. When no existing file ids are passed, nothing is reported as skipped exactly when
      every attachment was visited and none failed. */
  lemma NothingSkippedIff(fates: seq<Fate>)
    requires forall i :: 0 <= i < |fates| ==> !fates[i].Reused?
    ensures Skipped(fates) == 0 <==> Visited(fates, 0) == |fates| && Failures(fates) == 0
  {
    var n := Visited(fates, 0);
    AccountingHolds(fates);
    NoneReused(fates[..n]);
    assert n == |fates| ==> fates[..n] == fates;
  }

  lemma {:induction false} NoneReused(fates: seq<Fate>)
    requires forall i :: 0 <= i < |fates| ==> !fates[i].Reused?
    ensures ReusedFiles(fates) == 0
  {
    if fates != [] { NoneReused(fates[..|fates| - 1]); }
  }

  /** Without existing files nothing is reused. */
  lemma NothingReused(attachments: seq<Attachment>, limits: Limits)
    ensures var fates := Fates(attachments, map[], limits);
            Skipped(fates) == 0 <==> Visited(fates, 0) == |attachments| && Failures(fates) == 0
  {
    NothingSkippedIff(Fates(attachments, map[], limits));
  }

  /** EXACT REPORT. The reported number is the true one, failed plus unvisited, exactly when the limit was
      not reached or nothing before it had failed or been reused. */
  lemma ReportExactIff(fates: seq<Fate>)
    ensures var n := Visited(fates, 0);
            var seen := fates[..n];
            Skipped(fates) == Failures(seen) + (|fates| - n) <==>
            Uploads(seen) < MAX_FILE_ATTACHMENTS || (Failures(seen) == 0 && ReusedFiles(seen) == 0)
  {
    AccountingHolds(fates);
  }

  /** Whether handling an attachment sets the error flag, and to what: an oversized file raises it, and
      every upload of downloaded content overwrites it. */
  function SetsError(a: Attachment, fileNames: map<string, string>, limits: Limits): Option<bool> {
    if !IsFile(a) || (a.name in fileNames && fileNames[a.name] != "") then None
    else if !a.hosted && a.sizeAndURL.Some? && a.sizeAndURL.value > limits.maxFileSize then Some(true)
    else if !DownloadFails(a, limits) && Downloaded(a, limits).Some? then Some(a.processed.1)
    else None
  }

  /** The error flag after a prefix of the attachments. */
  function ErrorFlag(attachments: seq<Attachment>, fileNames: map<string, string>, limits: Limits): bool {
    if attachments == [] then false
    else
      var last := SetsError(attachments[|attachments| - 1], fileNames, limits);
      if last.Some? then last.value else ErrorFlag(attachments[..|attachments| - 1], fileNames, limits)
  }

  lemma FlagSnoc(attachments: seq<Attachment>, n: nat, fileNames: map<string, string>, limits: Limits)
    requires n < |attachments|
    ensures ErrorFlag(attachments[..n + 1], fileNames, limits)
            == var last := SetsError(attachments[n], fileNames, limits);
               if last.Some? then last.value else ErrorFlag(attachments[..n], fileNames, limits)
  {
    assert attachments[..n + 1][..n] == attachments[..n];
  }

  /** The flag is raised in the end exactly when some attachment raised it and none after that lowered it. */
  lemma {:induction false} FlagIsLastWord(attachments: seq<Attachment>, fileNames: map<string, string>, limits: Limits)
    ensures ErrorFlag(attachments, fileNames, limits) <==>
            exists i :: 0 <= i < |attachments| && SetsError(attachments[i], fileNames, limits) == Some(true)
                        && forall j :: i < j < |attachments| ==>
                             SetsError(attachments[j], fileNames, limits) != Some(false)
  {
    hide SetsError;
    if attachments != [] {
      var front := attachments[..|attachments| - 1];
      FlagIsLastWord(front, fileNames, limits);
      var last := SetsError(attachments[|attachments| - 1], fileNames, limits);
      if last.None? && ErrorFlag(front, fileNames, limits) {
        var i :| 0 <= i < |front| && SetsError(front[i], fileNames, limits) == Some(true)
                 && forall j :: i < j < |front| ==> SetsError(front[j], fileNames, limits) != Some(false);
        assert SetsError(attachments[i], fileNames, limits) == Some(true);
      }
      if i :| 0 <= i < |front| && SetsError(attachments[i], fileNames, limits) == Some(true)
              && forall j :: i < j < |attachments| ==> SetsError(attachments[j], fileNames, limits) != Some(false) {
        assert SetsError(front[i], fileNames, limits) == Some(true);
      }
    }
  }

  /** Names of existing files; a later file of the same name replaces an earlier one. */
  function FileNames(existing: seq<(string, string)>): map<string, string> {
    if existing == [] then map[]
    else FileNames(existing[..|existing| - 1])[existing[|existing| - 1].0 := existing[|existing| - 1].1]
  }

  /** Of several files with one name the last one counts. */
  lemma {:induction false} LastNameWins(existing: seq<(string, string)>, i: nat)
    requires i < |existing| && forall j :: i < j < |existing| ==> existing[j].0 != existing[i].0
    ensures existing[i].0 in FileNames(existing) && FileNames(existing)[existing[i].0] == existing[i].1
  {
    if i < |existing| - 1 { LastNameWins(existing[..|existing| - 1], i); }
  }

  lemma {:induction false} OnlyTheirNames(existing: seq<(string, string)>)
    ensures forall name :: name in FileNames(existing) ==> exists i :: 0 <= i < |existing| && existing[i].0 == name
  {
    if existing != [] {
      var last := |existing| - 1;
      OnlyTheirNames(existing[..last]);
      assert forall i :: 0 <= i < last ==> existing[i] == existing[..last][i];
    }
  }

  /** The names of the existing files. */
  method CollectFileNames(existing: seq<(string, string)>) returns (fileNames: map<string, string>)
    ensures fileNames == FileNames(existing)
  {
    fileNames := map[];
    for i := 0 to |existing|
      invariant fileNames == FileNames(existing[..i])
    {
      assert existing[..i + 1][..i] == existing[..i];
      fileNames := fileNames[existing[i].0 := existing[i].1];
    }
    assert existing[..|existing|] == existing;
  }

  /** The part of the loop that downloads and uploads one file: its id, or "" for any failure, and the
      error flag afterwards. */
  method Transfer(a: Attachment, limits: Limits, errorBefore: bool) returns (fileInfoId: string, errorFound: bool)
    requires IsFile(a)
    ensures FateOf(a, map[], limits) == if fileInfoId == "" then Failed else Uploaded(fileInfoId)
    ensures errorFound == var last := SetsError(a, map[], limits); if last.Some? then last.value else errorBefore
    ensures a.hosted ==>
              (fileInfoId, errorFound) == if a.hostedContent.Some? then a.processed else ("", errorBefore)
    ensures !a.hosted && a.sizeAndURL.None? ==> (fileInfoId, errorFound) == ("", errorBefore)
    ensures !a.hosted && a.sizeAndURL.Some? ==>
              var size := a.sizeAndURL.value;
              (fileInfoId, errorFound)
              == if size > limits.maxFileSize then ("", true)
                 else if size > limits.maxCompleteDownload then (a.streamed, errorBefore)
                 else if a.content.Some? then a.processed
                 else ("", errorBefore)
  {
    errorFound := errorBefore;
    var attachmentData: Option<seq<int>> := None;
    if a.hosted {
      attachmentData := a.hostedContent;
      if attachmentData.None? { return "", errorFound; }
    } else {
      if a.sizeAndURL.None? { return "", errorFound; }
      if a.sizeAndURL.value > limits.maxFileSize { return "", true; }
      if a.sizeAndURL.value <= limits.maxCompleteDownload {
        attachmentData := a.content;
        if attachmentData.None? { return "", errorFound; }
      }
    }
    if attachmentData.Some? {
      fileInfoId, errorFound := a.processed.0, a.processed.1;
    } else {
      fileInfoId := a.streamed;
    }
  }

  /** Only existing files of the same name matter to an attachment. */
  lemma FateCases(a: Attachment, fileNames: map<string, string>, limits: Limits)
    ensures !IsFile(a) ==> FateOf(a, fileNames, limits) == NotAFile && SetsError(a, fileNames, limits) == None
    ensures IsFile(a) && a.name in fileNames && fileNames[a.name] != "" ==>
              FateOf(a, fileNames, limits) == Reused(fileNames[a.name]) && SetsError(a, fileNames, limits) == None
    ensures !(a.name in fileNames && fileNames[a.name] != "") ==>
              && FateOf(a, fileNames, limits) == FateOf(a, map[], limits)
              && SetsError(a, fileNames, limits) == SetsError(a, map[], limits)
  {
  }

  /** The text after the attachments: the attachment tags are stripped for each of them, and code snippets
      and cards are put in. */
  function TextAfter(attachments: seq<Attachment>, text: string, strip: string -> string): string {
    if attachments == [] then text
    else
      var last := attachments[|attachments| - 1];
      var stripped := strip(TextAfter(attachments[..|attachments| - 1], text, strip));
      if IsRendered(last) then last.rendered(stripped) else stripped
  }

  /** The post that the message replies to: the last reference decides. */
  function ParentOf(attachments: seq<Attachment>): string {
    if attachments == [] then ""
    else
      var last := attachments[|attachments| - 1];
      if last.contentType == MESSAGE_REFERENCE then last.parentId else ParentOf(attachments[..|attachments| - 1])
  }

  lemma TextSnoc(attachments: seq<Attachment>, n: nat, text: string, strip: string -> string)
    requires n < |attachments|
    ensures var a, stripped := attachments[n], strip(TextAfter(attachments[..n], text, strip));
            && TextAfter(attachments[..n + 1], text, strip)
               == (if IsRendered(a) then a.rendered(stripped) else stripped)
            && ParentOf(attachments[..n + 1])
               == if a.contentType == MESSAGE_REFERENCE then a.parentId else ParentOf(attachments[..n])
  {
    assert attachments[..n + 1][..n] == attachments[..n];
  }

  /** What handleAttachments returns. */
  datatype Outcome = Outcome(text: string, fileIds: seq<string>, parentId: string, skipped: int, errorFound: bool)

  /** The outcome when the first n attachments have been visited without reaching the limit. */
  function OutcomeOf(
    attachments: seq<Attachment>, n: nat, fileNames: map<string, string>, limits: Limits, text: string,
    strip: string -> string): Outcome
    requires n <= |attachments|
  {
    var fates, seen := Fates(attachments, fileNames, limits), attachments[..n];
    Outcome(TextAfter(seen, text, strip), FileIds(fates[..n]), ParentOf(seen), Failures(fates[..n]),
            ErrorFlag(seen, fileNames, limits))
  }

  /** What visiting one attachment adds. */
  function Visit(
    o: Outcome, a: Attachment, fileNames: map<string, string>, limits: Limits, strip: string -> string): Outcome
  {
    var fate, flag := FateOf(a, fileNames, limits), SetsError(a, fileNames, limits);
    Outcome(
      if IsRendered(a) then a.rendered(strip(o.text)) else strip(o.text),
      o.fileIds + (if fate.Reused? || fate.Uploaded? then [fate.fileId] else []),
      if a.contentType == MESSAGE_REFERENCE then a.parentId else o.parentId,
      o.skipped + (if fate.Failed? then 1 else 0),
      if flag.Some? then flag.value else o.errorFound)
  }

  lemma OutcomeSnoc(
    attachments: seq<Attachment>, n: nat, fileNames: map<string, string>, limits: Limits, text: string,
    strip: string -> string)
    requires n < |attachments|
    ensures OutcomeOf(attachments, n + 1, fileNames, limits, text, strip)
            == Visit(OutcomeOf(attachments, n, fileNames, limits, text, strip), attachments[n], fileNames, limits,
                     strip)
  {
    UploadsSnoc(Fates(attachments, fileNames, limits), n);
    FlagSnoc(attachments, n, fileNames, limits);
    TextSnoc(attachments, n, text, strip);
  }

  /** The part of the loop for what is not a file: a code snippet, a reply, a card, or ignored. */
  method HandleNonFile(a: Attachment, text: string, parentBefore: string) returns (newText: string, parentId: string)
    requires !IsFile(a)
    ensures newText == if a.contentType == "application/vnd.microsoft.card.codesnippet"
                          || a.contentType == "application/vnd.microsoft.card.adaptive" then a.rendered(text) else text
    ensures parentId == if a.contentType == "messageReference" then a.parentId else parentBefore
  {
    newText, parentId := text, parentBefore;
    if a.contentType == CODE_SNIPPET {
      newText := a.rendered(newText);
      return;
    }
    if a.contentType == MESSAGE_REFERENCE {
      parentId := a.parentId;
      return;
    }
    if a.contentType == ADAPTIVE_CARD { newText := a.rendered(newText); }
  }

  /** The body of the loop, up to the ten-file limit. */
  method HandleAttachment(
    o: Outcome, a: Attachment, fileNames: map<string, string>, limits: Limits, strip: string -> string)
    returns (o': Outcome, uploaded: bool)
    ensures o' == Visit(o, a, fileNames, limits, strip)
    ensures uploaded <==> FateOf(a, fileNames, limits).Uploaded?
    ensures a.contentType != "reference" ==>
              && o'.fileIds == o.fileIds && o'.skipped == o.skipped && o'.errorFound == o.errorFound && !uploaded
    ensures a.contentType == "reference" ==>
              && o'.text == strip(o.text) && o'.parentId == o.parentId
              && (a.name in fileNames && fileNames[a.name] != "" ==>
                    o' == o.(text := o'.text, fileIds := o.fileIds + [fileNames[a.name]]) && !uploaded)
              && (a.name !in fileNames || fileNames[a.name] == "" ==>
                    if uploaded
                    then o'.skipped == o.skipped && |o'.fileIds| == |o.fileIds| + 1 && o.fileIds <= o'.fileIds
                    else o'.skipped == o.skipped + 1 && o'.fileIds == o.fileIds)
  {
    var newText := strip(o.text);
    FateCases(a, fileNames, limits);
    hide FateOf, SetsError;
    if a.contentType != "reference" {
      var parentId;
      newText, parentId := HandleNonFile(a, newText, o.parentId);
      return o.(text := newText, parentId := parentId), false;
    }
    var fileInfoId := if a.name in fileNames then fileNames[a.name] else "";
    if fileInfoId != "" { return o.(text := newText, fileIds := o.fileIds + [fileInfoId]), false; }
    var errorFound;
    fileInfoId, errorFound := Transfer(a, limits, o.errorFound);
    if fileInfoId == "" { return o.(text := newText, skipped := o.skipped + 1, errorFound := errorFound), false; }
    return o.(text := newText, fileIds := o.fileIds + [fileInfoId], errorFound := errorFound), true;
  }

  lemma VisitedStep(fates: seq<Fate>, i: nat)
    requires i < |fates|
    ensures Visited(fates, i) == if fates[i].Uploaded? && Uploads(fates[..i + 1]) == MAX_FILE_ATTACHMENTS then i + 1
                                 else Visited(fates, i + 1)
  {
  }

  /** handleAttachments. `existing` are the (name, id) pairs of the existing files that were found. */
  method HandleAttachments(
    attachments: seq<Attachment>, existing: seq<(string, string)>, limits: Limits, text: string,
    strip: string -> string, hasClient: bool)
    returns (o: Outcome)
    ensures !hasClient ==> o == Outcome("", [], "", 0, false)
    ensures hasClient ==>
              var fates := Fates(attachments, FileNames(existing), limits);
              o == OutcomeOf(attachments, Visited(fates, 0), FileNames(existing), limits, text, strip)
                   .(skipped := Skipped(fates))
    ensures hasClient && existing == [] ==>
              var fates := Fates(attachments, map[], limits);
              o.skipped == 0 <==> Visited(fates, 0) == |attachments| && Failures(fates) == 0
  {
    if existing == [] { NothingReused(attachments, limits); }
    if !hasClient { return Outcome("", [], "", 0, false); }
    var fileNames := CollectFileNames(existing);
    ghost var fates := Fates(attachments, fileNames, limits);
    o := Outcome(text, [], "", 0, false);
    var countNonFile, countFile := 0, 0;
    VisitedBound(fates, 0);
    assert OutcomeOf(attachments, 0, fileNames, limits, text, strip) == o;
    assert NonFiles(fates[..0]) == Uploads(fates[..0]) == 0;
    hide FateOf, Visit, NonFiles, Uploads, FileIds, FileNames, Failures, Skipped, Visited, OutcomeOf, Fates;
    for i := 0 to |attachments|
      invariant Visited(fates, i) == Visited(fates, 0)
      invariant o == OutcomeOf(attachments, i, fileNames, limits, text, strip)
      invariant countNonFile == NonFiles(fates[..i])
      invariant countFile == Uploads(fates[..i]) < MAX_FILE_ATTACHMENTS
    {
      var a := attachments[i];
      VisitedStep(fates, i);
      UploadsSnoc(fates, i);
      OutcomeSnoc(attachments, i, fileNames, limits, text, strip);
      FateCases(a, fileNames, limits);
      var uploaded;
      o, uploaded := HandleAttachment(o, a, fileNames, limits, strip);
      if !IsFile(a) { countNonFile := countNonFile + 1; }
      if uploaded { countFile := countFile + 1; }
      if uploaded && countFile == MAX_FILE_ATTACHMENTS {
        LimitReached(attachments, i + 1, fileNames, limits, text, strip);
        o := o.(skipped := o.skipped + |attachments| - countNonFile - countFile);
        return;
      }
    }
    LimitNotReached(attachments, fileNames, limits, text, strip);
  }

  lemma LimitReached(
    attachments: seq<Attachment>, n: nat, fileNames: map<string, string>, limits: Limits, text: string,
    strip: string -> string)
    requires n <= |attachments|
    ensures var fates := Fates(attachments, fileNames, limits);
            Visited(fates, 0) == n && Uploads(fates[..n]) == MAX_FILE_ATTACHMENTS ==>
              Skipped(fates) == OutcomeOf(attachments, n, fileNames, limits, text, strip).skipped
                                + |attachments| - NonFiles(fates[..n]) - MAX_FILE_ATTACHMENTS
  {
  }

  lemma LimitNotReached(
    attachments: seq<Attachment>, fileNames: map<string, string>, limits: Limits, text: string,
    strip: string -> string)
    ensures var fates := Fates(attachments, fileNames, limits);
            Visited(fates, 0) == |attachments| && Uploads(fates[..|attachments|]) < MAX_FILE_ATTACHMENTS ==>
              Skipped(fates) == OutcomeOf(attachments, |attachments|, fileNames, limits, text, strip).skipped
  {
  }
}
