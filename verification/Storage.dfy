/**
 State files and the atomic write they all go through.
 */
module Storage {
  import opened Text

  datatype File = Absent | NotUtf8 | Holds(text: string)

  datatype FileError = Io | InvalidText

  /** `read_optional_string`: a missing or blank file is no value. */
  function ReadText(f: File, readable: bool): Result<Option<string>, FileError> {
    if !readable then Err(Io)
    else
      match f
      case Absent => Ok(None)
      case NotUtf8 => Err(InvalidText)
      case Holds(t) => Ok(if Trim(t) == [] then None else Some(Trim(t)))
  }

  /** How a `secure_write` ended: it may report failure before or after the rename took effect. */
  datatype WriteOutcome = Written | FailedBefore | FailedAfter

  function AfterWrite<T>(before: T, after: T, o: WriteOutcome): T {
    if o.FailedBefore? then before else after
  }

  /** The steps of `secure_write`, in order; `Nowhere` when none of them fails. */
  datatype WriteStep = CreateTemp | SetMode | WriteAll | SyncFile | KeepTemp | Rename | SyncDirectory | Nowhere

  function OutcomeOf(failing: WriteStep): WriteOutcome {
    match failing
    case Nowhere => Written
    case SyncDirectory => FailedAfter
    case _ => FailedBefore
  }

  datatype Entry = Entry(contents: string, mode: nat)

  const TEMP_MODE: nat := 0x180 // owner read and write only

  /** The destination directory of one managed file. */
  class Directory {
    var target: Option<Entry>
    var temp: Option<Entry>
    ghost var seen: seq<Option<Entry>> // the target after every step so far

    ghost predicate SeenOnly(from: nat, a: Option<Entry>, b: Option<Entry>)
      reads this
    {
      from <= |seen| && forall i :: from <= i < |seen| ==> seen[i] == a || seen[i] == b
    }

    /** One step of the write: the temporary file changes, the target does not. */
    method Prepare(entry: Option<Entry>)
      modifies this
      ensures temp == entry && target == old(target) && seen == old(seen) + [target]
    {
      temp := entry;
      seen := seen + [target];
    }

    /** Everything before the rename; a failed step removes the temporary file again. */
    method WriteTemp(contents: string, mode: nat, failing: WriteStep, partial: string) returns (ok: bool)
      modifies this
      ensures target == old(target) && old(seen) <= seen && SeenOnly(|old(seen)|, target, target)
      ensures ok <==> failing in {Rename, SyncDirectory, Nowhere}
      ensures temp == if ok then Some(Entry(contents, mode)) else None
    {
      temp := None;
      if failing == CreateTemp {
        return false;
      }
      Prepare(Some(Entry("", TEMP_MODE)));
      if failing == SetMode {
        temp := None;
        return false;
      }
      Prepare(Some(Entry("", mode)));
      if failing == WriteAll {
        Prepare(Some(Entry(partial, mode)));
        temp := None;
        return false;
      }
      Prepare(Some(Entry(contents, mode)));
      if failing == SyncFile || failing == KeepTemp {
        temp := None;
        return false;
      }
      return true;
    }

    /**
     `secure_write` with step `failing` failing (a failed `write_all` leaves `partial` in the temporary file).
     A reader sees the old entry or the whole new one with its final mode, and nothing else, after every step.
     */
    method SecureWrite(contents: string, mode: nat, failing: WriteStep, partial: string) returns (ok: bool)
      modifies this
      ensures ok <==> failing == Nowhere
      ensures target == AfterWrite(old(target), Some(Entry(contents, mode)), OutcomeOf(failing))
      ensures target == if failing in {SyncDirectory, Nowhere} then Some(Entry(contents, mode)) else old(target)
      ensures old(seen) <= seen && SeenOnly(|old(seen)|, old(target), Some(Entry(contents, mode)))
      ensures failing !in {Rename, Nowhere, SyncDirectory} ==> temp == None
    {
      var written := WriteTemp(contents, mode, failing, partial);
      if !written || failing == Rename {
        return false;
      }
      target, temp := temp, None;
      seen := seen + [target];
      return failing != SyncDirectory;
    }
  }
}
