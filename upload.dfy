/**
 * The upload tracker of `FileUploader`: the extension allow-list, the ordered
 * list of upload entries, and the simulated upload of each entry
 * (idle -> uploading -> progress in steps of 5 up to 100 -> processing -> complete).
 *
 * The list computations of the component are pure functions here: `NewEntries`
 * builds the entries for the accepted files, `UpdateById` is the `prev.map`
 * patch of one entry and `RemoveById` the `prev.filter` that drops one. The
 * component's state and the timers it registers are the class `UploadTracker`,
 * whose methods are the event handlers and timer callbacks; they apply these
 * functions to the old list, as in `Add`, whose new list is the old one
 * followed by `NewEntries`.
 */
module Upload {
  import opened Wrappers
  import opened Text

  /** A `crypto.randomUUID()` token. */
  type Id = string

  /** The browser `File` handle: only its name matters to the tracker. */
  datatype FileHandle = FileHandle(name: string, size: nat)

  datatype FileStatus = Idle | Uploading | Processing | Complete | Error

  datatype UploadEntry = UploadEntry(id: Id, file: FileHandle, progress: nat, status: FileStatus, error: Option<string>)

  // ---------------------------------------------------------------------------
  // The extension allow-list
  // ---------------------------------------------------------------------------

  /**
   * `name.split('.').pop()`: the text after the last '.', or the whole name
   * when it has no '.'.
   */
  function Extension(name: string): (ext: string)
    ensures |ext| <= |name| && ext == name[|name| - |ext|..]
    ensures '.' !in ext
    ensures |ext| < |name| ==> name[|name| - |ext| - 1] == '.'
  {
    if |name| == 0 then ""
    else if name[|name| - 1] == '.' then ""
    else
      var front := name[..|name| - 1];
      var ext := Extension(front) + [name[|name| - 1]];
      assert front[|front| - (|ext| - 1)..] + [name[|name| - 1]] == name[|name| - |ext|..];
      ext
  }

  /** The extension is exactly the text after the last '.' of the name. */
  lemma ExtensionAfterLastDot(name: string, k: nat)
    requires k < |name| && name[k] == '.' && '.' !in name[k + 1..]
    ensures Extension(name) == name[k + 1..]
  {
  }

  /** A name without a '.' is its own extension. */
  lemma ExtensionWithoutDot(name: string)
    requires '.' !in name
    ensures Extension(name) == name
  {
  }

  const AllowedExtensions: seq<string> := ["pdf", "docx", "doc", "zip"]

  /** The filter of `addFiles`: the lower-cased extension is one of pdf, docx, doc, zip. */
  predicate IsAccepted(name: string)
  {
    ToLower(Extension(name)) in AllowedExtensions
  }

  /** A PDF is accepted. */
  lemma AcceptsPdf()
    ensures IsAccepted("report.pdf")
  {
    ExtensionAfterLastDot("report.pdf", 6);
    assert ToLower("pdf") == "pdf" == AllowedExtensions[0];
  }

  /** Upper-case extensions are accepted: the extension is lower-cased first. */
  lemma AcceptsUpperCase()
    ensures IsAccepted("Contract.DOCX")
  {
    ExtensionAfterLastDot("Contract.DOCX", 8);
    assert ToLower("DOCX") == "docx" == AllowedExtensions[1];
  }

  /** A name without a '.' is its own extension: it is accepted iff the whole name, lower-cased, is allowed. */
  lemma BareNameAccepted(name: string)
    requires '.' !in name
    ensures IsAccepted(name) <==> ToLower(name) in AllowedExtensions
  {
    ExtensionWithoutDot(name);
  }

  /** Other extensions are rejected. */
  lemma RejectsText()
    ensures !IsAccepted("notes.txt")
  {
    ExtensionAfterLastDot("notes.txt", 5);
    assert ToLower("txt") == "txt";
  }

  /** Only the last extension counts. */
  lemma RejectsDoubleExtension()
    ensures !IsAccepted("report.pdf.exe")
  {
    ExtensionAfterLastDot("report.pdf.exe", 10);
    assert ToLower("exe") == "exe";
  }

  /** A trailing '.' leaves an empty extension. */
  lemma RejectsTrailingDot()
    ensures !IsAccepted("report.")
  {
    ExtensionAfterLastDot("report.", 6);
  }

  /** `newFiles.filter(...)`: the files whose extension is allowed, in input order. */
  function AcceptedFiles(files: seq<FileHandle>): (r: seq<FileHandle>)
    ensures |r| <= |files|
  {
    if files == [] then []
    else (if IsAccepted(files[0].name) then [files[0]] else []) + AcceptedFiles(files[1..])
  }

  /**
   * A file is kept exactly when its extension is allowed: every accepted file
   * keeps its number of occurrences and every other file is dropped.
   */
  lemma {:induction false} AcceptedFilesCounts(files: seq<FileHandle>)
    ensures forall f :: multiset(AcceptedFiles(files))[f] == if IsAccepted(f.name) then multiset(files)[f] else 0
  {
    if files != [] {
      assert files == [files[0]] + files[1..];
      AcceptedFilesCounts(files[1..]);
    }
  }

  /** The filter keeps input order: filtering a concatenation filters each part. */
  lemma {:induction false} AcceptedFilesAppend(a: seq<FileHandle>, b: seq<FileHandle>)
    ensures AcceptedFiles(a + b) == AcceptedFiles(a) + AcceptedFiles(b)
  {
    if a == [] {
      assert a + b == b;
    } else {
      var ab := a + b;
      assert ab[..1] == a[..1] && ab[1..] == a[1..] + b;
      AcceptedFilesFirst(a);
      AcceptedFilesFirst(ab);
      AcceptedFilesAppend(a[1..], b);
      var head, front, back := AcceptedFiles(a[..1]), AcceptedFiles(a[1..]), AcceptedFiles(b);
      assert AcceptedFiles(ab) == head + (front + back);
      ConcatAssociative(head, front, back);
    }
  }

  /** Concatenation is associative (stated apart so that it is proved in a small context). */
  lemma ConcatAssociative<T>(x: seq<T>, y: seq<T>, z: seq<T>)
    ensures x + (y + z) == (x + y) + z
  {
  }

  /** The filter decides the first file on its own. */
  lemma AcceptedFilesFirst(files: seq<FileHandle>)
    requires files != []
    ensures AcceptedFiles(files) == AcceptedFiles(files[..1]) + AcceptedFiles(files[1..])
  {
    assert files[..1][1..] == [];
  }

  // ---------------------------------------------------------------------------
  // Icons and status labels
  // ---------------------------------------------------------------------------

  /** The four icon classes of `getFileTypeIcon`. */
  datatype FileIcon = PdfIcon | WordIcon | ArchiveIcon | GenericIcon

  function FileTypeIcon(name: string): (icon: FileIcon)
    ensures icon == PdfIcon <==> ToLower(Extension(name)) == "pdf"
    ensures icon == WordIcon <==> ToLower(Extension(name)) in {"doc", "docx"}
    ensures icon == ArchiveIcon <==> ToLower(Extension(name)) == "zip"
  {
    match ToLower(Extension(name))
    case "pdf" => PdfIcon
    case "docx" => WordIcon
    case "doc" => WordIcon
    case "zip" => ArchiveIcon
    case _ => GenericIcon
  }

  /** A file gets a specific icon exactly when the allow-list accepts it. */
  lemma IconAgreesWithAllowList(name: string)
    ensures FileTypeIcon(name) != GenericIcon <==> IsAccepted(name)
  {
  }

  /** `getStatusText` */
  function StatusText(status: FileStatus): (text: string)
    ensures text != ""
  {
    match status
    case Idle => "Ready"
    case Uploading => "Uploading"
    case Processing => "Processing"
    case Complete => "Complete"
    case Error => "Error"
  }

  /** Different statuses are shown with different labels. */
  lemma StatusTextInjective(a: FileStatus, b: FileStatus)
    ensures StatusText(a) == StatusText(b) ==> a == b
  {
  }

  // ---------------------------------------------------------------------------
  // The list updaters passed to `setFiles`
  // ---------------------------------------------------------------------------

  /** The entries `addFiles` creates for the accepted files, one fresh id each. */
  function NewEntries(files: seq<FileHandle>, ids: seq<Id>, status: FileStatus): (r: seq<UploadEntry>)
    requires |ids| == |files|
    ensures |r| == |files|
  {
    seq(|files|, i requires 0 <= i < |files| => UploadEntry(ids[i], files[i], 0, status, None))
  }

  /** The two field updates of `simulateUpload`: `{ ...f, status }` and `{ ...f, progress }`. */
  datatype Patch = SetStatus(status: FileStatus) | SetProgress(progress: nat)

  function Apply(e: UploadEntry, patch: Patch): UploadEntry
  {
    match patch
    case SetStatus(s) => e.(status := s)
    case SetProgress(p) => e.(progress := p)
  }

  /** `prevFiles.map(f => f.id === id ? patched : f)` */
  function UpdateById(files: seq<UploadEntry>, id: Id, patch: Patch): (r: seq<UploadEntry>)
    ensures |r| == |files|
    ensures forall i :: 0 <= i < |files| && files[i].id != id ==> r[i] == files[i]
    ensures forall i :: 0 <= i < |files| && files[i].id == id ==> r[i] == Apply(files[i], patch)
  {
    if files == [] then []
    else [if files[0].id == id then Apply(files[0], patch) else files[0]] + UpdateById(files[1..], id, patch)
  }

  /** An update for an id that is no longer in the list leaves the list as it is. */
  lemma UpdateAbsentId(files: seq<UploadEntry>, id: Id, patch: Patch)
    requires forall i :: 0 <= i < |files| ==> files[i].id != id
    ensures UpdateById(files, id, patch) == files
  {
  }

  /** `prevFiles.filter(f => f.id !== id)` */
  function RemoveById(files: seq<UploadEntry>, id: Id): (r: seq<UploadEntry>)
    ensures |r| <= |files|
    ensures forall i :: 0 <= i < |r| ==> r[i].id != id
  {
    if files == [] then []
    else (if files[0].id == id then [] else [files[0]]) + RemoveById(files[1..], id)
  }

  /**
   * Removal deletes every entry with the id, and only those: each other entry
   * keeps its number of occurrences.
   */
  lemma {:induction false} RemoveByIdCounts(files: seq<UploadEntry>, id: Id)
    ensures forall e :: multiset(RemoveById(files, id))[e] == if e.id == id then 0 else multiset(files)[e]
  {
    if files != [] {
      assert files == [files[0]] + files[1..];
      RemoveByIdCounts(files[1..], id);
    }
  }

  predicate DistinctIds(files: seq<UploadEntry>)
  {
    forall i, j :: 0 <= i < j < |files| ==> files[i].id != files[j].id
  }

  /** Removal keeps ids unique. */
  lemma {:induction false} RemoveKeepsDistinct(files: seq<UploadEntry>, id: Id)
    requires DistinctIds(files)
    ensures DistinctIds(RemoveById(files, id))
  {
    if files != [] {
      var rest := files[1..];
      DistinctTail(files);
      RemoveKeepsDistinct(rest, id);
      var r := RemoveById(rest, id);
      RemoveKeepsEntries(rest, id);
      forall i | 0 <= i < |r| ensures r[i].id != files[0].id {
        assert r[i] in rest;
        var j :| 0 <= j < |rest| && rest[j] == r[i];
        assert files[j + 1] == r[i];
      }
    }
  }

  /** Every entry that survives a removal was in the list before. */
  lemma RemoveKeepsEntries(files: seq<UploadEntry>, id: Id)
    ensures forall e :: e in RemoveById(files, id) ==> e in files && e.id != id
  {
    var r := RemoveById(files, id);
    RemoveByIdCounts(files, id);
    forall e | e in r ensures e in files {
      assert multiset(r)[e] > 0;
    }
  }

  /**
   * With unique ids, removing the entry at position k leaves the others in
   * their original order.
   */
  lemma {:induction false} RemoveAt(files: seq<UploadEntry>, k: nat)
    requires DistinctIds(files) && k < |files|
    ensures RemoveById(files, files[k].id) == files[..k] + files[k + 1..]
  {
    var id := files[k].id;
    var rest := files[1..];
    assert files == [files[0]] + rest;
    if k == 0 {
      assert forall i :: 0 <= i < |rest| ==> rest[i] == files[i + 1];
      RemoveAbsent(rest, id);
    } else {
      DistinctTail(files);
      assert rest[k - 1] == files[k];
      RemoveAt(rest, k - 1);
      assert files[0].id != id;
      assert RemoveById(files, id) == [files[0]] + RemoveById(rest, id);
      assert rest[..k - 1] == files[1..k];
      assert rest[k..] == files[k + 1..];
      assert files[..k] == [files[0]] + files[1..k];
      ConcatAssociative([files[0]], files[1..k], files[k + 1..]);
    }
  }

  /** The tail of a list with unique ids has unique ids. */
  lemma DistinctTail(files: seq<UploadEntry>)
    requires files != [] && DistinctIds(files)
    ensures DistinctIds(files[1..])
  {
    var rest := files[1..];
    forall i, j | 0 <= i < j < |rest| ensures rest[i].id != rest[j].id {
      assert rest[i] == files[i + 1] && rest[j] == files[j + 1];
    }
  }

  /** Removing an id that is not in the list changes nothing. */
  lemma {:induction false} RemoveAbsent(files: seq<UploadEntry>, id: Id)
    requires forall i :: 0 <= i < |files| ==> files[i].id != id
    ensures RemoveById(files, id) == files
  {
    if files != [] {
      assert files == [files[0]] + files[1..];
      assert forall i :: 0 <= i < |files[1..]| ==> files[1..][i] == files[i + 1];
      RemoveAbsent(files[1..], id);
    }
  }

  // ---------------------------------------------------------------------------
  // The "Process Files" button
  // ---------------------------------------------------------------------------

  /** `files.some(f => f.status !== 'complete')` */
  function AnyIncomplete(files: seq<UploadEntry>): (r: bool)
    ensures r <==> exists i :: 0 <= i < |files| && files[i].status != Complete
  {
    if files == [] then false
    else if files[0].status != Complete then true
    else
      var rest := AnyIncomplete(files[1..]);
      assert rest ==> exists i :: 0 <= i < |files| && files[i].status != Complete by {
        if rest {
          var j :| 0 <= j < |files[1..]| && files[1..][j].status != Complete;
          assert files[j + 1].status != Complete;
        }
      }
      rest
  }

  datatype ProcessButton = Hidden | Disabled | Enabled

  /**
   * The "Process Files" button: rendered only when there is an entry, and
   * disabled while some entry is not complete.
   */
  function ProcessFilesButton(files: seq<UploadEntry>): (b: ProcessButton)
    ensures b == Hidden <==> files == []
    ensures b == Enabled <==> files != [] && forall i :: 0 <= i < |files| ==> files[i].status == Complete
    ensures b == Disabled <==> exists i :: 0 <= i < |files| && files[i].status != Complete
  {
    if files == [] then Hidden
    else if AnyIncomplete(files) then Disabled
    else Enabled
  }

  // ---------------------------------------------------------------------------
  // The state machine of one entry
  // ---------------------------------------------------------------------------

  /** The status order idle -> uploading -> processing -> complete; error is never entered. */
  function Next(s: FileStatus): FileStatus
  {
    match s
    case Idle => Uploading
    case Uploading => Processing
    case Processing => Complete
    case Complete => Complete
    case Error => Error
  }

  function Rank(s: FileStatus): nat
  {
    match s
    case Idle => 0
    case Uploading => 1
    case Processing => 2
    case Complete => 3
    case Error => 4
  }

  /** `Next` moves idle, uploading and processing one place up the order and keeps complete and error. */
  lemma NextStepsUp(s: FileStatus)
    ensures s != Complete && s != Error ==> Rank(Next(s)) == Rank(s) + 1
    ensures s == Complete || s == Error ==> Next(s) == s
  {
  }

  /**
   * One step of one entry: same id and file, status unchanged or its successor,
   * progress unchanged or up by at most one tick of 5.
   */
  predicate Advances(before: UploadEntry, after: UploadEntry)
  {
    && after.id == before.id && after.file == before.file && after.error == before.error
    && (after.status == before.status || after.status == Next(before.status))
    && before.progress <= after.progress <= before.progress + 5
  }

  /** Every entry present before and after a step has advanced by at most one step. */
  predicate StepsForward(before: seq<UploadEntry>, after: seq<UploadEntry>)
  {
    forall i, j :: 0 <= i < |before| && 0 <= j < |after| && before[i].id == after[j].id ==>
      Advances(before[i], after[j])
  }

  /**
   * Over any run of steps, an entry's status never goes back in the order and
   * its progress never decreases.
   */
  lemma {:induction false} HistoryIsMonotone(history: seq<UploadEntry>)
    requires |history| > 0
    requires forall k :: 0 <= k < |history| - 1 ==> Advances(history[k], history[k + 1])
    ensures history[|history| - 1].id == history[0].id
    ensures Rank(history[0].status) <= Rank(history[|history| - 1].status)
    ensures history[0].progress <= history[|history| - 1].progress
  {
    if |history| > 1 {
      var front := history[..|history| - 1];
      HistoryIsMonotone(front);
      assert Advances(history[|history| - 2], history[|history| - 1]);
    }
  }

  /**
   * What a registered timer of `simulateUpload` holds: the interval with its
   * local `progress` counter, the pending 1500 ms timeout, or nothing left.
   */
  datatype Timer = Interval(count: nat) | Timeout | Done

  /** How an entry relates to the timers of its id. */
  predicate Consistent(e: UploadEntry, timer: Option<Timer>)
  {
    && e.error == None
    && match timer
       case None => e.status == Idle && e.progress == 0
       case Some(Interval(c)) => e.status == Uploading && e.progress == c && c % 5 == 0 && c < 100
       case Some(Timeout) => e.status == Processing && e.progress == 100
       case Some(Done) => e.status == Complete && e.progress == 100
  }

  /**
   * The invariants of an entry: progress is a multiple of 5 in 0..100, 'error'
   * is never reached, and processing or complete only once progress is 100.
   */
  lemma ConsistentEntry(e: UploadEntry, timer: Option<Timer>)
    requires Consistent(e, timer)
    ensures e.progress % 5 == 0 && e.progress <= 100
    ensures e.status != Error && e.error == None
    ensures e.status == Idle ==> e.progress == 0
    ensures e.status == Processing || e.status == Complete ==> e.progress == 100
  {
  }

  function TimerOf(timers: map<Id, Timer>, id: Id): Option<Timer>
  {
    if id in timers then Some(timers[id]) else None
  }

  /** Every entry agrees with the timers of its id. */
  predicate AllConsistent(files: seq<UploadEntry>, timers: map<Id, Timer>)
  {
    forall i :: 0 <= i < |files| ==> Consistent(files[i], TimerOf(timers, files[i].id))
  }

  /** The interval counters are multiples of 5 below 100 (they stop at 100). */
  predicate CountersInRange(timers: map<Id, Timer>)
  {
    forall id :: id in timers && timers[id].Interval? ==> timers[id].count % 5 == 0 && timers[id].count < 100
  }

  /**
   * An update of the entry with one id, together with a new timer for that id,
   * keeps the list consistent when the updated entry agrees with the new timer
   * and has advanced by one step.
   */
  lemma Retime(files: seq<UploadEntry>, updated: seq<UploadEntry>, timers: map<Id, Timer>, id: Id, t: Timer)
    requires DistinctIds(files) && AllConsistent(files, timers)
    requires |updated| == |files|
    requires forall i :: 0 <= i < |files| && files[i].id != id ==> updated[i] == files[i]
    requires forall i :: 0 <= i < |files| && files[i].id == id ==>
      Advances(files[i], updated[i]) && Consistent(updated[i], Some(t))
    ensures DistinctIds(updated) && AllConsistent(updated, timers[id := t])
    ensures StepsForward(files, updated)
  {
    assert forall i :: 0 <= i < |files| ==> updated[i].id == files[i].id;
    forall i, j | 0 <= i < |files| && 0 <= j < |updated| && files[i].id == updated[j].id
      ensures Advances(files[i], updated[j])
    {
      assert i == j;
    }
  }

  /** Appending fresh idle entries keeps the list consistent. */
  lemma AppendFresh(files: seq<UploadEntry>, extra: seq<UploadEntry>, timers: map<Id, Timer>)
    requires DistinctIds(files) && AllConsistent(files, timers)
    requires DistinctIds(extra) && AllConsistent(extra, timers)
    requires forall i, j :: 0 <= i < |extra| && 0 <= j < |files| ==> extra[i].id != files[j].id
    ensures DistinctIds(files + extra) && AllConsistent(files + extra, timers)
    ensures StepsForward(files, files + extra)
  {
    var all := files + extra;
    forall i, j | 0 <= i < j < |all| ensures all[i].id != all[j].id {
      if j >= |files| {
        if i >= |files| {
          assert all[i] == extra[i - |files|] && all[j] == extra[j - |files|];
        } else {
          assert all[j] == extra[j - |files|];
        }
      }
    }
    assert forall i, j :: 0 <= i < |files| && |files| <= j < |all| ==> all[j].id != files[i].id by {
      forall i, j | 0 <= i < |files| && |files| <= j < |all| ensures all[j].id != files[i].id {
        assert all[j] == extra[j - |files|];
      }
    }
    FreshAppendStepsForward(files, extra);
  }

  /** Appending entries with fresh ids leaves every existing entry where it was. */
  lemma FreshAppendStepsForward(files: seq<UploadEntry>, extra: seq<UploadEntry>)
    requires DistinctIds(files)
    requires forall i, j :: 0 <= i < |extra| && 0 <= j < |files| ==> extra[i].id != files[j].id
    ensures StepsForward(files, files + extra)
  {
    var all := files + extra;
    forall i, j | 0 <= i < |files| && 0 <= j < |all| && files[i].id == all[j].id
      ensures Advances(files[i], all[j])
    {
      if j < |files| {
        assert all[j] == files[j];
      }
    }
  }

  /** Removing an id keeps the list consistent; the survivors are untouched. */
  lemma RemoveConsistent(files: seq<UploadEntry>, timers: map<Id, Timer>, id: Id)
    requires DistinctIds(files) && AllConsistent(files, timers)
    ensures DistinctIds(RemoveById(files, id)) && AllConsistent(RemoveById(files, id), timers)
    ensures StepsForward(files, RemoveById(files, id))
  {
    var r := RemoveById(files, id);
    RemoveKeepsDistinct(files, id);
    RemoveKeepsEntries(files, id);
    forall j | 0 <= j < |r| ensures Consistent(r[j], TimerOf(timers, r[j].id)) {
      assert r[j] in files;
    }
    forall i, j | 0 <= i < |files| && 0 <= j < |r| && files[i].id == r[j].id
      ensures Advances(files[i], r[j])
    {
      assert r[j] in files;
      var k :| 0 <= k < |files| && files[k] == r[j];
      assert k == i;
    }
  }

  /** One tick moves a counter that is a multiple of 5 below 100 to the next multiple of 5, at most 100. */
  lemma NextCount(c: nat)
    requires c % 5 == 0 && c < 100
    ensures (c + 5) % 5 == 0 && c + 5 <= 100
  {
  }

  /** The timers registered for a batch of ids, one interval each, in the order they start. */
  function StartedTimers(ids: seq<Id>): (m: map<Id, Timer>)
    ensures m.Keys == set id | id in ids
  {
    if ids == [] then map[] else StartedTimers(ids[..|ids| - 1])[ids[|ids| - 1] := Interval(0)]
  }

  lemma StartedTimersStep(base: map<Id, Timer>, ids: seq<Id>, k: nat)
    requires k < |ids|
    ensures (base + StartedTimers(ids[..k]))[ids[k] := Interval(0)] == base + StartedTimers(ids[..k + 1])
  {
    assert ids[..k + 1][..k] == ids[..k];
  }

  lemma StartedTimersNone(base: map<Id, Timer>, ids: seq<Id>)
    ensures base + StartedTimers(ids[..0]) == base
  {
    assert ids[..0] == [];
  }

  lemma StartedTimersAll(base: map<Id, Timer>, ids: seq<Id>)
    ensures base + StartedTimers(ids[..|ids|]) == base + StartedTimers(ids)
  {
    assert ids[..|ids|] == ids;
  }

  /** The next id of a batch of distinct fresh ids has no timer yet. */
  lemma NotYetStarted(base: map<Id, Timer>, ids: seq<Id>, k: nat)
    requires k < |ids|
    requires forall i, j :: 0 <= i < j < |ids| ==> ids[i] != ids[j]
    requires forall i :: 0 <= i < |ids| ==> ids[i] !in base
    ensures ids[k] !in base + StartedTimers(ids[..k])
  {
    assert ids[k] !in ids[..k];
  }

  /**
   * Midway through `addFiles`: the old entries, then the new ones, of which
   * the first k have been started.
   */
  predicate BatchStarted(files: seq<UploadEntry>, prefix: seq<UploadEntry>, accepted: seq<FileHandle>, ids: seq<Id>, k: nat)
    requires |accepted| == |ids|
  {
    && |files| == |prefix| + |ids|
    && (forall p :: 0 <= p < |prefix| ==> files[p] == prefix[p])
    && forall j :: 0 <= j < |ids| ==>
         files[|prefix| + j] == UploadEntry(ids[j], accepted[j], 0, if j < k then Uploading else Idle, None)
  }

  lemma BatchStartedFirst(prefix: seq<UploadEntry>, accepted: seq<FileHandle>, ids: seq<Id>)
    requires |accepted| == |ids|
    ensures BatchStarted(prefix + NewEntries(accepted, ids, Idle), prefix, accepted, ids, 0)
  {
  }

  lemma BatchStartedStep(files: seq<UploadEntry>, prefix: seq<UploadEntry>, accepted: seq<FileHandle>, ids: seq<Id>, k: nat)
    requires |accepted| == |ids| && k < |ids|
    requires BatchStarted(files, prefix, accepted, ids, k)
    requires forall i, j :: 0 <= i < j < |ids| ==> ids[i] != ids[j]
    requires forall i, j :: 0 <= i < |ids| && 0 <= j < |prefix| ==> ids[i] != prefix[j].id
    ensures BatchStarted(UpdateById(files, ids[k], SetStatus(Uploading)), prefix, accepted, ids, k + 1)
  {
    var id := ids[k];
    var updated := UpdateById(files, id, SetStatus(Uploading));
    var n := |prefix|;
    forall p | 0 <= p < n ensures updated[p] == prefix[p] {
      assert files[p] == prefix[p] && prefix[p].id != id;
    }
    forall j | 0 <= j < |ids|
      ensures updated[n + j] == UploadEntry(ids[j], accepted[j], 0, if j < k + 1 then Uploading else Idle, None)
    {
      var e := files[n + j];
      assert e == UploadEntry(ids[j], accepted[j], 0, if j < k then Uploading else Idle, None);
      if j == k {
        assert updated[n + j] == Apply(e, SetStatus(Uploading));
      } else {
        assert e.id != id;
        assert updated[n + j] == e;
      }
    }
  }

  lemma BatchStartedLast(files: seq<UploadEntry>, prefix: seq<UploadEntry>, accepted: seq<FileHandle>, ids: seq<Id>)
    requires |accepted| == |ids|
    requires BatchStarted(files, prefix, accepted, ids, |ids|)
    ensures files == prefix + NewEntries(accepted, ids, Uploading)
    ensures ids != [] ==> ProcessFilesButton(files) == Disabled
  {
    var expected := prefix + NewEntries(accepted, ids, Uploading);
    forall p | 0 <= p < |files| ensures files[p] == expected[p] {
      if p >= |prefix| {
        assert files[|prefix| + (p - |prefix|)] == files[p];
      }
    }
    if ids != [] {
      assert expected[|prefix|].status == Uploading;
    }
  }

  /** Idle entries for fresh, distinct ids have distinct ids of their own and agree with the timers. */
  lemma IdleEntries(accepted: seq<FileHandle>, ids: seq<Id>, files: seq<UploadEntry>, timers: map<Id, Timer>)
    requires |accepted| == |ids|
    requires forall i, j :: 0 <= i < j < |ids| ==> ids[i] != ids[j]
    requires forall i :: 0 <= i < |ids| ==> ids[i] !in timers
    requires forall i, j :: 0 <= i < |ids| && 0 <= j < |files| ==> ids[i] != files[j].id
    ensures var extra := NewEntries(accepted, ids, Idle);
      && DistinctIds(extra) && AllConsistent(extra, timers)
      && forall i, j :: 0 <= i < |extra| && 0 <= j < |files| ==> extra[i].id != files[j].id
  {
    var extra := NewEntries(accepted, ids, Idle);
    assert forall i :: 0 <= i < |extra| ==> extra[i].id == ids[i];
  }

  /** Started entries for fresh ids leave the entries already in the list where they were. */
  lemma FreshStarted(prefix: seq<UploadEntry>, accepted: seq<FileHandle>, ids: seq<Id>)
    requires |accepted| == |ids|
    requires DistinctIds(prefix)
    requires forall i, j :: 0 <= i < |ids| && 0 <= j < |prefix| ==> ids[i] != prefix[j].id
    ensures StepsForward(prefix, prefix + NewEntries(accepted, ids, Uploading))
  {
    var extra := NewEntries(accepted, ids, Uploading);
    assert forall i :: 0 <= i < |extra| ==> extra[i].id == ids[i];
    FreshAppendStepsForward(prefix, extra);
  }

  /** The state of one `FileUploader` and of the timers it registered. */
  class UploadTracker {
    var files: seq<UploadEntry>
    var timers: map<Id, Timer>

    ghost predicate Valid()
      reads this
    {
      DistinctIds(files) && AllConsistent(files, timers) && CountersInRange(timers)
    }

    /** Every entry of a valid tracker satisfies the per-entry invariants. */
    lemma EntriesWellFormed()
      requires Valid()
      ensures forall i :: 0 <= i < |files| ==>
        files[i].progress % 5 == 0 && files[i].progress <= 100 && files[i].status != Error
    {
      forall i | 0 <= i < |files| {
        ConsistentEntry(files[i], TimerOf(timers, files[i].id));
      }
    }

    constructor ()
      ensures Valid() && files == [] && timers == map[]
    {
      files := [];
      timers := map[];
    }

    /**
     * The first half of `addFiles` after the filter: the accepted files become
     * idle entries with progress 0, appended after the existing ones in input order.
     */
    method Add(accepted: seq<FileHandle>, ids: seq<Id>)
      requires Valid()
      requires |ids| == |accepted|
      requires forall i, j :: 0 <= i < j < |ids| ==> ids[i] != ids[j]
      requires forall i :: 0 <= i < |ids| ==> ids[i] !in timers
      requires forall i, j :: 0 <= i < |ids| && 0 <= j < |files| ==> ids[i] != files[j].id
      modifies this
      ensures Valid()
      ensures files == old(files) + NewEntries(accepted, ids, Idle)
      ensures timers == old(timers)
      ensures StepsForward(old(files), files)
    {
      var extra := NewEntries(accepted, ids, Idle);
      IdleEntries(accepted, ids, files, timers);
      AppendFresh(files, extra, timers);
      files := files + extra;
    }

    /** The first statement of `simulateUpload(id)`, and the interval it registers. */
    method Start(id: Id)
      requires Valid()
      requires id !in timers
      modifies this
      ensures Valid()
      ensures files == UpdateById(old(files), id, SetStatus(Uploading))
      ensures timers == old(timers)[id := Interval(0)]
      ensures StepsForward(old(files), files)
    {
      var updated := UpdateById(files, id, SetStatus(Uploading));
      Retime(files, updated, timers, id, Interval(0));
      files, timers := updated, timers[id := Interval(0)];
    }

    /** `addFiles`: append the accepted files, then start the upload of each. */
    method AddFiles(newFiles: seq<FileHandle>, ids: seq<Id>)
      requires Valid()
      requires |ids| == |AcceptedFiles(newFiles)|
      requires forall i, j :: 0 <= i < j < |ids| ==> ids[i] != ids[j]
      requires forall i :: 0 <= i < |ids| ==> ids[i] !in timers
      requires forall i, j :: 0 <= i < |ids| && 0 <= j < |files| ==> ids[i] != files[j].id
      modifies this
      ensures Valid()
      ensures files == old(files) + NewEntries(AcceptedFiles(newFiles), ids, Uploading)
      ensures timers == old(timers) + StartedTimers(ids)
      ensures ids != [] ==> ProcessFilesButton(files) == Disabled
      ensures StepsForward(old(files), files)
    {
      var accepted := AcceptedFiles(newFiles);
      ghost var prefix := files;
      Add(accepted, ids);
      BatchStartedFirst(prefix, accepted, ids);
      StartedTimersNone(old(timers), ids);
      var k := 0;
      while k < |ids|
        invariant 0 <= k <= |ids|
        invariant Valid()
        invariant BatchStarted(files, prefix, accepted, ids, k)
        invariant timers == old(timers) + StartedTimers(ids[..k])
      {
        var id := ids[k];
        NotYetStarted(old(timers), ids, k);
        StartedTimersStep(old(timers), ids, k);
        BatchStartedStep(files, prefix, accepted, ids, k);
        Start(id);
        k := k + 1;
      }
      StartedTimersAll(old(timers), ids);
      BatchStartedLast(files, prefix, accepted, ids);
      FreshStarted(prefix, accepted, ids);
    }

    /**
     * The interval callback of `simulateUpload(id)`: its counter goes up by 5,
     * the entry takes the new progress, and at 100 the interval is cleared,
     * the entry becomes processing and the 1500 ms timeout is registered.
     */
    method Tick(id: Id)
      requires Valid()
      requires id in timers && timers[id].Interval?
      modifies this
      ensures Valid()
      ensures var c := old(timers)[id].count + 5;
        && timers == old(timers)[id := if c >= 100 then Timeout else Interval(c)]
        && files == (if c >= 100
                     then UpdateById(UpdateById(old(files), id, SetProgress(c)), id, SetStatus(Processing))
                     else UpdateById(old(files), id, SetProgress(c)))
      ensures StepsForward(old(files), files)
    {
      ghost var before := files;
      var progress := timers[id].count + 5;
      NextCount(timers[id].count);
      files := UpdateById(files, id, SetProgress(progress));
      if progress >= 100 {
        timers := timers[id := Timeout];
        files := UpdateById(files, id, SetStatus(Processing));
        Retime(before, files, old(timers), id, Timeout);
      } else {
        timers := timers[id := Interval(progress)];
        Retime(before, files, old(timers), id, Interval(progress));
      }
    }

    /** The timeout callback of `simulateUpload(id)`: the entry becomes complete. */
    method Finish(id: Id)
      requires Valid()
      requires id in timers && timers[id] == Timeout
      modifies this
      ensures Valid()
      ensures files == UpdateById(old(files), id, SetStatus(Complete))
      ensures timers == old(timers)[id := Done]
      ensures StepsForward(old(files), files)
    {
      var updated := UpdateById(files, id, SetStatus(Complete));
      Retime(files, updated, timers, id, Done);
      files, timers := updated, timers[id := Done];
    }

    /** `removeFile(id)`: the timers of the id keep running and update nothing. */
    method Remove(id: Id)
      requires Valid()
      modifies this
      ensures Valid()
      ensures files == RemoveById(old(files), id)
      ensures timers == old(timers)
      ensures StepsForward(old(files), files)
    {
      RemoveConsistent(files, timers, id);
      files := RemoveById(files, id);
    }
  }

  /** The list with the entries of one id set to the given progress and status. */
  function Staged(files: seq<UploadEntry>, id: Id, progress: nat, status: FileStatus): (r: seq<UploadEntry>)
    ensures |r| == |files|
  {
    seq(|files|, i requires 0 <= i < |files| =>
      if files[i].id == id then files[i].(progress := progress, status := status) else files[i])
  }

  /** A progress update overrides the progress of a staged entry. */
  lemma StagedProgress(files: seq<UploadEntry>, id: Id, progress: nat, status: FileStatus, next: nat)
    ensures UpdateById(Staged(files, id, progress, status), id, SetProgress(next)) == Staged(files, id, next, status)
  {
    var r := UpdateById(Staged(files, id, progress, status), id, SetProgress(next));
    assert forall i :: 0 <= i < |files| ==> r[i] == Staged(files, id, next, status)[i];
  }

  /** A status update overrides the status of a staged entry. */
  lemma StagedStatus(files: seq<UploadEntry>, id: Id, progress: nat, status: FileStatus, next: FileStatus)
    ensures UpdateById(Staged(files, id, progress, status), id, SetStatus(next)) == Staged(files, id, progress, next)
  {
    var r := UpdateById(Staged(files, id, progress, status), id, SetStatus(next));
    assert forall i :: 0 <= i < |files| ==> r[i] == Staged(files, id, progress, next)[i];
  }

  /** Staging the values the entries already have changes nothing. */
  lemma StagedSame(files: seq<UploadEntry>, id: Id, progress: nat, status: FileStatus)
    requires forall i :: 0 <= i < |files| && files[i].id == id ==>
      files[i].progress == progress && files[i].status == status
    ensures Staged(files, id, progress, status) == files
  {
    assert forall i :: 0 <= i < |files| ==> Staged(files, id, progress, status)[i] == files[i];
  }

  /** The entries of an id whose interval has just been registered are uploading at 0%. */
  lemma StartedEntries(files: seq<UploadEntry>, timers: map<Id, Timer>, id: Id)
    requires AllConsistent(files, timers) && id in timers && timers[id] == Interval(0)
    ensures Staged(files, id, 0, Uploading) == files
  {
    forall i | 0 <= i < |files| && files[i].id == id ensures files[i].progress == 0 && files[i].status == Uploading {
      assert Consistent(files[i], TimerOf(timers, files[i].id));
    }
    StagedSame(files, id, 0, Uploading);
  }

  /** Replacing the timer of an id replaces whatever was there before. */
  lemma Rearmed(timers: map<Id, Timer>, id: Id, before: Timer, after: Timer)
    ensures timers[id := before][id := after] == timers[id := after]
    ensures id in timers && timers[id] == before ==> timers[id := before] == timers
  {
  }

  /**
   * Once started, an upload runs to the end: after twenty interval ticks and
   * the timeout, the entries of the id are complete at 100% and every other
   * entry is as it was.
   */
  method RunUpload(tracker: UploadTracker, id: Id)
    requires tracker.Valid() && id in tracker.timers && tracker.timers[id] == Interval(0)
    modifies tracker
    ensures tracker.Valid()
    ensures tracker.timers == old(tracker.timers)[id := Done]
    ensures tracker.files == Staged(old(tracker.files), id, 100, Complete)
  {
    ghost var start := tracker.files;
    ghost var timers0 := tracker.timers;
    StartedEntries(start, timers0, id);
    Rearmed(timers0, id, Interval(0), Interval(0));
    var ticks := 0;
    while ticks < 19
      invariant 0 <= ticks <= 19
      invariant tracker.Valid()
      invariant tracker.timers == timers0[id := Interval(5 * ticks)]
      invariant tracker.files == Staged(start, id, 5 * ticks, Uploading)
    {
      ProgressTick(tracker, id, start, timers0, 5 * ticks);
      ticks := ticks + 1;
    }
    LastTick(tracker, id, start, timers0);
  }

  /** One interval tick below 100: the staged progress and the counter go up by 5. */
  method ProgressTick(tracker: UploadTracker, id: Id, ghost start: seq<UploadEntry>, ghost timers0: map<Id, Timer>, count: nat)
    requires count < 95
    requires tracker.Valid()
    requires tracker.timers == timers0[id := Interval(count)]
    requires tracker.files == Staged(start, id, count, Uploading)
    modifies tracker
    ensures tracker.Valid()
    ensures tracker.timers == timers0[id := Interval(count + 5)]
    ensures tracker.files == Staged(start, id, count + 5, Uploading)
  {
    tracker.Tick(id);
    Rearmed(timers0, id, Interval(count), Interval(count + 5));
    StagedProgress(start, id, count, Uploading, count + 5);
  }

  /** The tick that reaches 100 and then the timeout: the staged entries end complete at 100%. */
  method LastTick(tracker: UploadTracker, id: Id, ghost start: seq<UploadEntry>, ghost timers0: map<Id, Timer>)
    requires tracker.Valid()
    requires tracker.timers == timers0[id := Interval(95)]
    requires tracker.files == Staged(start, id, 95, Uploading)
    modifies tracker
    ensures tracker.Valid()
    ensures tracker.timers == timers0[id := Done]
    ensures tracker.files == Staged(start, id, 100, Complete)
  {
    tracker.Tick(id);
    Rearmed(timers0, id, Interval(95), Timeout);
    StagedProgress(start, id, 95, Uploading, 100);
    StagedStatus(start, id, 100, Uploading, Processing);
    Rearmed(timers0, id, Timeout, Done);
    tracker.Finish(id);
    StagedStatus(start, id, 100, Processing, Complete);
  }

  /** Of two dropped files of which only the first is accepted, only the first is added and started. */
  method StartFirstOfTwo(accepted: FileHandle, rejected: FileHandle, id: Id) returns (tracker: UploadTracker)
    requires IsAccepted(accepted.name) && !IsAccepted(rejected.name)
    ensures fresh(tracker) && tracker.Valid()
    ensures tracker.files == [UploadEntry(id, accepted, 0, Uploading, None)]
    ensures tracker.timers == map[id := Interval(0)]
  {
    tracker := new UploadTracker();
    OnlyFirstAccepted(accepted, rejected);
    SingleStart(accepted, id);
    tracker.AddFiles([accepted, rejected], [id]);
  }

  lemma OnlyFirstAccepted(accepted: FileHandle, rejected: FileHandle)
    requires IsAccepted(accepted.name) && !IsAccepted(rejected.name)
    ensures AcceptedFiles([accepted, rejected]) == [accepted]
  {
    var dropped := [accepted, rejected];
    assert AcceptedFiles([rejected]) == [] by {
      assert [rejected][1..] == [];
    }
    assert dropped[1..] == [rejected];
    assert AcceptedFiles(dropped) == [accepted] + AcceptedFiles([rejected]);
  }

  lemma SingleStart(accepted: FileHandle, id: Id)
    ensures [] + NewEntries([accepted], [id], Uploading) == [UploadEntry(id, accepted, 0, Uploading, None)]
    ensures map[] + StartedTimers([id]) == map[id := Interval(0)]
  {
    assert NewEntries([accepted], [id], Uploading)[0] == UploadEntry(id, accepted, 0, Uploading, None);
    assert [id][..0] == [];
  }

  /**
   * Two files are dropped and only the PDF is accepted; after twenty ticks and
   * the timeout it is complete at 100% and "Process Files" is enabled.
   */
  method UploadOneReport() returns (entries: seq<UploadEntry>)
    ensures |entries| == 1
    ensures entries[0].file.name == "report.pdf" && entries[0].progress == 100 && entries[0].status == Complete
    ensures ProcessFilesButton(entries) == Enabled
  {
    AcceptsPdf();
    RejectsText();
    var tracker := StartFirstOfTwo(FileHandle("report.pdf", 1024), FileHandle("notes.txt", 10), "u1");
    RunUpload(tracker, "u1");
    entries := tracker.files;
  }
}
