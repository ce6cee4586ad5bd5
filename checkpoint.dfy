/**
 * Checkpoint naming and the retention rule of `ChatTrainer.delete_early_checkpoint`:
 * which `.pth` files under the checkpoint directory are selected for removal.
 * The directory listing (path and creation time of every `.pth` file) is an input
 * and the removed paths are the output; the file system itself is not modelled.
 */
module Checkpoints {
  import opened Wrappers
  import opened Text

  /** The suffix handed to `save_model`: an epoch number or an interrupt tag. */
  datatype Tag = EpochTag(epoch: nat) | ExitTag(stamp: string)

  /** The text `'{}'.format(suffix)` puts into the path. */
  function TagText(tag: Tag): string
  {
    match tag
    case EpochTag(e) => NatToDecimal(e)
    case ExitTag(stamp) => "exit_save_" + stamp
  }

  /** `train_config.model_file`: a path with one `{}` placeholder, `head + "{}" + tail`. */
  datatype PathTemplate = PathTemplate(head: string, tail: string)

  function TemplateText(t: PathTemplate): string
  {
    t.head + "{}" + t.tail
  }

  /** `model_file.format(suffix)`: the file a checkpoint with this tag is written to. */
  function CheckpointPath(t: PathTemplate, tag: Tag): string
  {
    t.head + TagText(tag) + t.tail
  }

  /**
   * A template of the shape `<dir>/<name>.{}.<ext>`: the placeholder sits between
   * two dots and the extension has no dot, as in `./model_save/chat_small_t5.{}.pth`.
   */
  predicate WellShaped(t: PathTemplate)
  {
    && |t.head| >= 1 && t.head[|t.head| - 1] == '.'
    && |t.tail| >= 1 && t.tail[0] == '.' && '.' !in t.tail[1..]
  }

  /** The directory whose `.pth` files are listed: backslashes become `/`, the last `/` field is dropped. */
  function CheckpointDir(modelFile: string): string
  {
    var fields := Split(ReplaceChar(modelFile, '\\', '/'), '/');
    Join('/', fields[..|fields| - 1])
  }

  /** One entry of the listing: a `.pth` path and its creation time (only compared). */
  datatype FileEntry = FileEntry(path: string, created: real)

  /** Python raises on the epoch field: IndexError when the path has no `.`, ValueError when it is no integer. */
  datatype PruneError = MissingEpochField(path: string) | EpochNotInteger(path: string)

  /** Interrupt checkpoints are recognised by `'exit_save' in path`. */
  predicate ExitSaved(path: string)
  {
    Contains(path, "exit_save")
  }

  /** `int(path.split('.')[-2])`. */
  function ParseEpoch(path: string): Result<int, PruneError>
  {
    var fields := Split(path, '.');
    if |fields| < 2 then Err(MissingEpochField(path))
    else match ParseInt(fields[|fields| - 2])
      case None => Err(EpochNotInteger(path))
      case Some(v) => Ok(v)
  }

  /**
   * The first loop: the entries that are not interrupt checkpoints and whose
   * epoch is at most `epoch`, in listing order; the first unparsable epoch aborts.
   */
  function Eligible(listing: seq<FileEntry>, epoch: int): Result<seq<FileEntry>, PruneError>
  {
    if listing == [] then Ok([])
    else match Eligible(listing[..|listing| - 1], epoch)
      case Err(e) => Err(e)
      case Ok(kept) =>
        var item := listing[|listing| - 1];
        if ExitSaved(item.path) then Ok(kept)
        else match ParseEpoch(item.path)
          case Err(e) => Err(e)
          case Ok(f) => if epoch >= f then Ok(kept + [item]) else Ok(kept)
  }

  predicate SortedByCreation(s: seq<FileEntry>)
  {
    forall i, j :: 0 <= i < j < |s| ==> s[i].created <= s[j].created
  }

  /** Places `x` after every entry created no later than it, so equal times keep their order. */
  function InsertByTime(x: FileEntry, s: seq<FileEntry>): (r: seq<FileEntry>)
    ensures |r| == |s| + 1
  {
    if s == [] then [x]
    else if s[|s| - 1].created <= x.created then s + [x]
    else InsertByTime(x, s[..|s| - 1]) + [s[|s| - 1]]
  }

  /** `list.sort(key=lambda x: x[1])`: Python's sort is stable, and so is insertion sort. */
  function SortedByTime(s: seq<FileEntry>): (r: seq<FileEntry>)
    ensures |r| == |s|
  {
    if s == [] then [] else InsertByTime(s[|s| - 1], SortedByTime(s[..|s| - 1]))
  }

  /** Where `[0:stop]` ends on a list of length `n`: negative stops count from the end. */
  function SliceStop(n: nat, stop: int): (end: nat)
    ensures end <= n
    ensures stop >= 0 ==> end == if stop <= n then stop else n
    ensures stop < 0 ==> end == if -stop <= n then n + stop else 0
  {
    if stop < 0 then (if n + stop < 0 then 0 else n + stop)
    else if stop > n then n
    else stop
  }

  /**
   * The entries `delete_early_checkpoint` removes, oldest first:
   * `train_save_model_fils[0:-keep_latest_n]` once the list is longer than `keep_latest_n`.
   */
  function PruneSelection(listing: seq<FileEntry>, epoch: int, keepLatestN: int): Result<seq<FileEntry>, PruneError>
  {
    match Eligible(listing, epoch)
    case Err(e) => Err(e)
    case Ok(kept) =>
      var ordered := SortedByTime(kept);
      if |ordered| <= keepLatestN then Ok([])
      else Ok(ordered[..SliceStop(|ordered|, -keepLatestN)])
  }

  function Paths(entries: seq<FileEntry>): (paths: seq<string>)
    ensures |paths| == |entries|
    ensures forall i :: 0 <= i < |entries| ==> paths[i] == entries[i].path
  {
    seq(|entries|, i requires 0 <= i < |entries| => entries[i].path)
  }

  // ---------------------------------------------------------------------------
  // The imperative procedure

  /** Sorts the entries by creation time in place, keeping entries with equal times in order. */
  method SortByCreationTime(a: array<FileEntry>)
    modifies a
    ensures a[..] == SortedByTime(old(a[..]))
  {
    ghost var orig := a[..];
    var i := 0;
    while i < a.Length
      invariant 0 <= i <= a.Length
      invariant a[..i] == SortedByTime(orig[..i])
      invariant a[i..] == orig[i..]
    {
      assert orig[..i + 1][..i] == orig[..i];
      assert a[i] == orig[i];
      InsertAt(a, i);
      i := i + 1;
    }
    assert orig[..a.Length] == orig;
  }

  /** One pass of insertion sort: moves `a[i]` into place within `a[..i + 1]`. */
  method InsertAt(a: array<FileEntry>, i: nat)
    requires i < a.Length
    modifies a
    ensures a[..i + 1] == InsertByTime(old(a[i]), old(a[..i]))
    ensures a[i + 1..] == old(a[i + 1..])
  {
    ghost var sorted := a[..i];
    ghost var rest := a[i + 1..];
    var x := a[i];
    var j := i;
    assert sorted[..j] == sorted && sorted[j..] == [];
    assert a[..] == sorted[..j] + [x] + sorted[j..] + rest;
    while j > 0 && a[j - 1].created > x.created
      invariant 0 <= j <= i
      invariant a[..] == sorted[..j] + [a[j]] + sorted[j..] + rest
      invariant InsertByTime(x, sorted) == InsertByTime(x, sorted[..j]) + sorted[j..]
    {
      InsertByTimeShift(x, sorted, j);
      ghost var before := a[..];
      HoleShift(sorted, rest, j, a[j]);
      a[j] := a[j - 1];
      assert a[..] == before[j := before[j - 1]];
      j := j - 1;
    }
    InsertByTimeStop(x, sorted, j);
    ghost var before := a[..];
    a[j] := x;
    assert a[..] == before[j := x];
    HoleFill(sorted, rest, j, before[j], x);
  }

  /** Moving the hole of `s[..j] + [h] + s[j..] + rest` one place to the left. */
  lemma HoleShift<T>(s: seq<T>, rest: seq<T>, j: nat, h: T)
    requires 0 < j <= |s|
    ensures var t := s[..j] + [h] + s[j..] + rest;
      && t[j - 1] == s[j - 1]
      && t[j := t[j - 1]] == s[..j - 1] + [s[j - 1]] + s[j - 1..] + rest
  {
    var t := s[..j] + [h] + s[j..] + rest;
    var u := s[..j - 1] + [s[j - 1]] + s[j - 1..] + rest;
    assert |t[j := t[j - 1]]| == |u|;
    forall k | 0 <= k < |u|
      ensures t[j := t[j - 1]][k] == u[k]
    {
    }
  }

  /** Filling the hole with `x`. */
  lemma HoleFill<T>(s: seq<T>, rest: seq<T>, j: nat, h: T, x: T)
    requires j <= |s|
    ensures var t := (s[..j] + [h] + s[j..] + rest)[j := x];
      t[..|s| + 1] == s[..j] + [x] + s[j..] && t[|s| + 1..] == rest
  {
    var t := (s[..j] + [h] + s[j..] + rest)[j := x];
    assert t == s[..j] + [x] + s[j..] + rest;
  }

  /**
   * `delete_early_checkpoint(epoch, keep_latest_n)`: returns the directory it lists
   * and the paths it removes, in removal order; Err when the epoch of a listed file
   * cannot be read, in which case nothing is removed.
   */
  method DeleteEarlyCheckpoint(modelFile: PathTemplate, listing: seq<FileEntry>, epoch: int, keepLatestN: int)
    returns (listedDir: string, removed: Result<seq<string>, PruneError>)
    ensures listedDir == CheckpointDir(TemplateText(modelFile))
    ensures removed.Err? <==> PruneSelection(listing, epoch, keepLatestN).Err?
    ensures removed.Err? ==> removed.error == PruneSelection(listing, epoch, keepLatestN).error
    ensures removed.Ok? ==> removed.value == Paths(PruneSelection(listing, epoch, keepLatestN).value)
  {
    listedDir := CheckpointDir(TemplateText(modelFile));
    var kept: seq<FileEntry> := [];
    var i := 0;
    while i < |listing|
      invariant 0 <= i <= |listing|
      invariant Eligible(listing[..i], epoch) == Ok(kept)
    {
      var item := listing[i];
      assert listing[..i + 1][..i] == listing[..i];
      if !ExitSaved(item.path) {
        var parsed := ParseEpoch(item.path);
        if parsed.Err? {
          EligibleAbortsOnError(listing, epoch, i);
          removed := Err(parsed.error);
          return;
        }
        if epoch >= parsed.value {
          kept := kept + [item];
        }
      }
      i := i + 1;
    }
    assert listing[..|listing|] == listing;

    var files := new FileEntry[|kept|](k requires 0 <= k < |kept| => kept[k]);
    assert files[..] == kept;
    SortByCreationTime(files);

    if files.Length <= keepLatestN {
      removed := Ok([]);
      return;
    }
    var stop := SliceStop(files.Length, -keepLatestN);
    var paths: seq<string> := [];
    var k := 0;
    while k < stop
      invariant 0 <= k <= stop
      invariant paths == Paths(files[..k])
    {
      paths := paths + [files[k].path];
      k := k + 1;
    }
    assert files[..stop] == files[..][..stop];
    removed := Ok(paths);
  }

  // ---------------------------------------------------------------------------
  // Lemmas: sorting

  lemma InsertByTimeShift(x: FileEntry, s: seq<FileEntry>, j: nat)
    requires 0 < j <= |s| && s[j - 1].created > x.created
    requires InsertByTime(x, s) == InsertByTime(x, s[..j]) + s[j..]
    ensures InsertByTime(x, s) == InsertByTime(x, s[..j - 1]) + s[j - 1..]
  {
    assert s[..j][..j - 1] == s[..j - 1];
    assert s[j - 1..] == [s[j - 1]] + s[j..];
  }

  lemma InsertByTimeStop(x: FileEntry, s: seq<FileEntry>, j: nat)
    requires j <= |s| && (j == 0 || s[j - 1].created <= x.created)
    ensures InsertByTime(x, s[..j]) == s[..j] + [x]
  {
  }

  lemma {:induction false} InsertByTimeMultiset(x: FileEntry, s: seq<FileEntry>)
    ensures multiset(InsertByTime(x, s)) == multiset(s) + multiset{x}
  {
    if s != [] && s[|s| - 1].created > x.created {
      var init := s[..|s| - 1];
      InsertByTimeMultiset(x, init);
      assert s == init + [s[|s| - 1]];
    }
  }

  lemma {:induction false} InsertByTimeSorted(x: FileEntry, s: seq<FileEntry>)
    requires SortedByCreation(s)
    ensures SortedByCreation(InsertByTime(x, s))
  {
    if s != [] && s[|s| - 1].created > x.created {
      var init, last := s[..|s| - 1], s[|s| - 1];
      InsertByTimeSorted(x, init);
      InsertByTimeMultiset(x, init);
      var r := InsertByTime(x, init);
      forall k | 0 <= k < |r|
        ensures r[k].created <= last.created
      {
        assert r[k] in multiset(r);
        assert r[k] in multiset(init) || r[k] == x;
        if r[k] != x {
          var m :| 0 <= m < |init| && init[m] == r[k];
        }
      }
    }
  }

  /** The stable sort orders entries by creation time. */
  lemma {:induction false} SortedByTimeSorted(s: seq<FileEntry>)
    ensures SortedByCreation(SortedByTime(s))
  {
    if s != [] {
      SortedByTimeSorted(s[..|s| - 1]);
      InsertByTimeSorted(s[|s| - 1], SortedByTime(s[..|s| - 1]));
    }
  }

  /** The stable sort neither loses nor invents entries. */
  lemma {:induction false} SortedByTimePermutation(s: seq<FileEntry>)
    ensures multiset(SortedByTime(s)) == multiset(s)
  {
    if s != [] {
      var init := s[..|s| - 1];
      SortedByTimePermutation(init);
      InsertByTimeMultiset(s[|s| - 1], SortedByTime(init));
      assert s == init + [s[|s| - 1]];
    }
  }

  // ---------------------------------------------------------------------------
  // Lemmas: the listing filter

  lemma {:induction false} EligibleAbortsOnError(listing: seq<FileEntry>, epoch: int, i: nat)
    requires i < |listing|
    requires Eligible(listing[..i], epoch).Ok?
    requires !ExitSaved(listing[i].path) && ParseEpoch(listing[i].path).Err?
    ensures PruneSelection(listing, epoch, 0) == Err(ParseEpoch(listing[i].path).error)
    ensures forall keep :: PruneSelection(listing, epoch, keep) == Err(ParseEpoch(listing[i].path).error)
  {
    EligibleErrorPersists(listing, epoch, i + 1);
    assert listing[..i + 1][..i] == listing[..i];
  }

  lemma {:induction false} EligibleErrorPersists(listing: seq<FileEntry>, epoch: int, n: nat)
    requires n <= |listing|
    requires Eligible(listing[..n], epoch).Err?
    ensures Eligible(listing, epoch) == Eligible(listing[..n], epoch)
    decreases |listing| - n
  {
    if n < |listing| {
      assert listing[..n + 1][..n] == listing[..n];
      EligibleErrorPersists(listing, epoch, n + 1);
    } else {
      assert listing[..n] == listing;
    }
  }

  /**
   * What the first loop keeps: exactly the listed entries that are not interrupt
   * checkpoints and whose epoch parses to at most `epoch`; it fails exactly when
   * some non-interrupt entry has no readable epoch.
   */
  lemma {:induction false} EligibleMeaning(listing: seq<FileEntry>, epoch: int)
    ensures Eligible(listing, epoch).Err? <==>
      exists k :: 0 <= k < |listing| && !ExitSaved(listing[k].path) && ParseEpoch(listing[k].path).Err?
    ensures Eligible(listing, epoch).Ok? ==> forall x ::
      x in Eligible(listing, epoch).value <==>
        (x in listing && !ExitSaved(x.path) && ParseEpoch(x.path).Ok? && ParseEpoch(x.path).value <= epoch)
  {
    if listing != [] {
      var init, item := listing[..|listing| - 1], listing[|listing| - 1];
      EligibleMeaning(init, epoch);
      assert listing == init + [item];
      if Eligible(init, epoch).Err? {
        var k :| 0 <= k < |init| && !ExitSaved(init[k].path) && ParseEpoch(init[k].path).Err?;
        assert listing[k] == init[k];
      } else if !ExitSaved(item.path) && ParseEpoch(item.path).Err? {
        assert listing[|listing| - 1] == item;
      } else {
        forall k | 0 <= k < |listing| && !ExitSaved(listing[k].path)
          ensures ParseEpoch(listing[k].path).Ok?
        {
          if k < |init| {
            assert listing[k] == init[k];
          }
        }
      }
    }
  }

  // ---------------------------------------------------------------------------
  // Lemmas: what is removed

  /** Every removed entry was listed, is not an interrupt checkpoint and has epoch at most `epoch`. */
  lemma PruneOnlyEligible(listing: seq<FileEntry>, epoch: int, keepLatestN: int)
    requires PruneSelection(listing, epoch, keepLatestN).Ok?
    ensures forall x :: x in PruneSelection(listing, epoch, keepLatestN).value ==>
      x in listing && !ExitSaved(x.path) && ParseEpoch(x.path).Ok? && ParseEpoch(x.path).value <= epoch
  {
    EligibleMeaning(listing, epoch);
    var kept := Eligible(listing, epoch).value;
    var ordered := SortedByTime(kept);
    SortedByTimePermutation(kept);
    var del := PruneSelection(listing, epoch, keepLatestN).value;
    forall x | x in del
      ensures x in kept
    {
      var k :| 0 <= k < |del| && del[k] == x;
      assert ordered[k] == x;
      assert x in multiset(ordered);
    }
  }

  /** An interrupt checkpoint, whatever its stamp and template, is never removed. */
  lemma ExitCheckpointNeverRemoved(t: PathTemplate, stamp: string, listing: seq<FileEntry>, epoch: int, keepLatestN: int)
    requires PruneSelection(listing, epoch, keepLatestN).Ok?
    ensures CheckpointPath(t, ExitTag(stamp)) !in Paths(PruneSelection(listing, epoch, keepLatestN).value)
  {
    PruneOnlyEligible(listing, epoch, keepLatestN);
    var path := CheckpointPath(t, ExitTag(stamp));
    assert path == t.head + "exit_save" + ("_" + stamp + t.tail);
    ContainsInfix(t.head, "exit_save", "_" + stamp + t.tail);
  }

  /** No more than `keep_latest_n` eligible files: nothing is removed. */
  lemma PruneNothingWhenFew(listing: seq<FileEntry>, epoch: int, keepLatestN: int)
    requires Eligible(listing, epoch).Ok? && |Eligible(listing, epoch).value| <= keepLatestN
    ensures PruneSelection(listing, epoch, keepLatestN) == Ok([])
  {
  }

  /** `keep_latest_n == 0` slices `[0:-0]`, which is empty: nothing is removed. */
  lemma PruneNothingWhenKeepZero(listing: seq<FileEntry>, epoch: int)
    requires Eligible(listing, epoch).Ok?
    ensures PruneSelection(listing, epoch, 0) == Ok([])
  {
  }

  /**
   * With `keep_latest_n >= 1` and N > keep_latest_n eligible files, the N - keep_latest_n
   * earliest-created ones are removed, and the keep_latest_n newest survive.
   */
  lemma PruneRemovesOldest(listing: seq<FileEntry>, epoch: int, keepLatestN: int)
    requires keepLatestN >= 1
    requires Eligible(listing, epoch).Ok? && |Eligible(listing, epoch).value| > keepLatestN
    ensures var kept := Eligible(listing, epoch).value;
      var ordered := SortedByTime(kept);
      var cut := |kept| - keepLatestN;
      && PruneSelection(listing, epoch, keepLatestN) == Ok(ordered[..cut])
      && |ordered[cut..]| == keepLatestN
      && multiset(ordered[..cut]) + multiset(ordered[cut..]) == multiset(kept)
      && forall i, j :: 0 <= i < cut <= j < |ordered| ==> ordered[i].created <= ordered[j].created
  {
    var kept := Eligible(listing, epoch).value;
    var ordered := SortedByTime(kept);
    var cut := |kept| - keepLatestN;
    assert SliceStop(|ordered|, -keepLatestN) == cut;
    SortedByTimePermutation(kept);
    MultisetOfSplit(ordered, cut);
    SortedByTimeSorted(kept);
  }

  lemma MultisetOfSplit<T>(s: seq<T>, cut: nat)
    requires cut <= |s|
    ensures multiset(s[..cut]) + multiset(s[cut..]) == multiset(s)
  {
    assert s == s[..cut] + s[cut..];
  }

  /** A negative `keep_latest_n` slices `[0:|keep_latest_n|]`: the oldest |keep_latest_n| files go, or all. */
  lemma PruneNegativeKeep(listing: seq<FileEntry>, epoch: int, keepLatestN: int)
    requires keepLatestN < 0 && Eligible(listing, epoch).Ok?
    ensures var kept := Eligible(listing, epoch).value;
      var n := if -keepLatestN <= |kept| then -keepLatestN else |kept|;
      PruneSelection(listing, epoch, keepLatestN) == Ok(SortedByTime(kept)[..n])
  {
  }

  // ---------------------------------------------------------------------------
  // Lemmas: paths

  /**
   * The listed directory is the template with `\` turned into `/` and its last
   * `/` field dropped: the template is that directory, a `/` and a last field
   * without `/`; a template without `/` lists the empty directory name.
   */
  lemma CheckpointDirMeaning(modelFile: string)
    ensures var r := ReplaceChar(modelFile, '\\', '/');
      var dir := CheckpointDir(modelFile);
      && '\\' !in dir
      && ('/' !in r ==> dir == "")
      && ('/' in r ==> |dir| < |r| && r == dir + ['/'] + r[|dir| + 1..] && '/' !in r[|dir| + 1..])
  {
    var r := ReplaceChar(modelFile, '\\', '/');
    var fields := Split(r, '/');
    var dir := CheckpointDir(modelFile);
    var n := |fields|;
    if '/' in r {
      assert n >= 2;
      JoinSplit(r, '/');
      JoinSnoc('/', fields);
      SplitFieldsFree(r, '/');
      assert r == dir + ['/'] + fields[n - 1];
      assert r[|dir| + 1..] == fields[n - 1];
      assert r[..|dir|] == dir;
    }
  }

  /** `int(path.split('.')[-2])` reads back the epoch a well-shaped template wrote. */
  lemma EpochCheckpointParses(t: PathTemplate, e: nat)
    requires WellShaped(t)
    ensures ParseEpoch(CheckpointPath(t, EpochTag(e))) == Ok(e)
  {
    var digits := NatToDecimal(e);
    NatToDecimalDigits(e);
    DigitsHaveNoDot(digits);
    var front, ext := t.head[..|t.head| - 1], t.tail[1..];
    var fields := Split(CheckpointPath(t, EpochTag(e)), '.');
    SplitEpochPath(t, digits);
    assert fields == Split(front, '.') + [digits, ext];
    assert fields[|fields| - 2] == digits;
    ParseDecimal(e);
  }

  lemma SplitEpochPath(t: PathTemplate, digits: string)
    requires WellShaped(t) && '.' !in digits
    ensures Split(t.head + digits + t.tail, '.') == Split(t.head[..|t.head| - 1], '.') + [digits, t.tail[1..]]
  {
    var front, ext := t.head[..|t.head| - 1], t.tail[1..];
    assert t.head + digits + t.tail == front + ['.'] + (digits + ['.'] + ext) by {
      assert t.head == front + ['.'];
      assert t.tail == ['.'] + ext;
    }
    SplitAround(front, digits + ['.'] + ext, '.');
    SplitAround(digits, ext, '.');
    assert Split(digits, '.') == [digits];
    assert Split(ext, '.') == [ext];
  }

  /**
   * A checkpoint written for epoch `e` under a well-shaped template is selected
   * by the first loop exactly when `e <= epoch` (unless the template itself says `exit_save`).
   */
  lemma EpochCheckpointEligible(t: PathTemplate, e: nat, created: real, listing: seq<FileEntry>, epoch: int)
    requires WellShaped(t) && !ExitSaved(CheckpointPath(t, EpochTag(e)))
    requires FileEntry(CheckpointPath(t, EpochTag(e)), created) in listing
    requires Eligible(listing, epoch).Ok?
    ensures FileEntry(CheckpointPath(t, EpochTag(e)), created) in Eligible(listing, epoch).value <==> e <= epoch
  {
    EpochCheckpointParses(t, e);
    EligibleMeaning(listing, epoch);
  }

  // ---------------------------------------------------------------------------
  // Finding: `[0:-keep_latest_n]` with keep_latest_n == 0

  /**
   * The evident intent, "keep only the newest keep_latest_n files": every eligible
   * file but the newest keepLatestN is removed, including all of them for zero.
   */
  function PruneIntended(listing: seq<FileEntry>, epoch: int, keepLatestN: nat): Result<seq<FileEntry>, PruneError>
  {
    match Eligible(listing, epoch)
    case Err(e) => Err(e)
    case Ok(kept) =>
      var ordered := SortedByTime(kept);
      if |ordered| <= keepLatestN then Ok([])
      else Ok(ordered[..|ordered| - keepLatestN])
  }

  /** The intended rule removes all but the newest keepLatestN eligible files, for every keepLatestN. */
  lemma PruneIntendedKeepsNewest(listing: seq<FileEntry>, epoch: int, keepLatestN: nat)
    requires Eligible(listing, epoch).Ok?
    ensures var kept := Eligible(listing, epoch).value;
      var cut := if |kept| <= keepLatestN then 0 else |kept| - keepLatestN;
      && PruneIntended(listing, epoch, keepLatestN) == Ok(SortedByTime(kept)[..cut])
      && |SortedByTime(kept)[cut..]| == (if |kept| <= keepLatestN then |kept| else keepLatestN)
      && (keepLatestN == 0 ==> multiset(SortedByTime(kept)[..cut]) == multiset(kept))
  {
    var kept := Eligible(listing, epoch).value;
    var ordered := SortedByTime(kept);
    var cut := if |kept| <= keepLatestN then 0 else |kept| - keepLatestN;
    assert PruneIntended(listing, epoch, keepLatestN) == Ok(ordered[..cut]);
    if keepLatestN == 0 {
      SortedByTimePermutation(kept);
      assert ordered[..cut] == ordered;
    }
  }

  /**
   * As written, one eligible checkpoint and keep_latest_n == 0 removes nothing,
   * where the intended rule removes it.
   */
  lemma KeepZeroRemovesNothing(created: real)
    ensures var t := PathTemplate("model.", ".pth");
      var listing := [FileEntry(CheckpointPath(t, EpochTag(1)), created)];
      && PruneSelection(listing, 1, 0) == Ok([])
      && PruneIntended(listing, 1, 0) == Ok(listing)
  {
    var t := PathTemplate("model.", ".pth");
    var item := FileEntry(CheckpointPath(t, EpochTag(1)), created);
    var listing := [item];
    SingleCheckpointEligible(t, item);
    assert SortedByTime([item]) == InsertByTime(item, SortedByTime([])) == [item];
    assert SliceStop(1, 0) == 0;
    assert [item][..1] == listing;
  }

  /** The checkpoint of epoch 1 under `model.{}.pth` is the one eligible entry of a listing holding only it. */
  lemma SingleCheckpointEligible(t: PathTemplate, item: FileEntry)
    requires t == PathTemplate("model.", ".pth") && item.path == CheckpointPath(t, EpochTag(1))
    ensures Eligible([item], 1) == Ok([item])
  {
    assert WellShaped(t);
    EpochCheckpointParses(t, 1);
    NotExitSaved(t, 1);
    assert [item][..0] == [];
    assert Eligible([item][..0], 1) == Ok([]);
    assert [item][|[item]| - 1] == item;
    assert !ExitSaved(item.path) && ParseEpoch(item.path) == Ok(1);
    assert [] + [item] == [item];
  }

  /** A template without an `x` writes epoch checkpoints that are not taken for interrupt ones. */
  lemma NotExitSaved(t: PathTemplate, e: nat)
    requires 'x' !in t.head && 'x' !in t.tail
    ensures !ExitSaved(CheckpointPath(t, EpochTag(e)))
  {
    var digits := NatToDecimal(e);
    NatToDecimalDigits(e);
    forall k | 0 <= k < |digits|
      ensures digits[k] != 'x'
    {
      assert IsDigit(digits[k]);
    }
    var path := CheckpointPath(t, EpochTag(e));
    assert path == t.head + digits + t.tail;
    assert 'x' !in path;
    ContainedCharsOccur(path, "exit_save", 1);
    assert "exit_save"[1] == 'x';
    assert !Contains(path, "exit_save");
  }
}
