/**
 Atomic replacement of a private file, stopped by an error or a crash at any of its steps.
 It justifies the three outcomes that module Journal gives a write of the state file.
 */
module PrivateFile {
  import opened Journal

  datatype Step =
    | MakeDirectory | CreateTemporary | RestrictTemporary | WriteData | Sync | CloseTemporary | Rename | RestrictFile

  /** What goes wrong: nothing, an error reported at one step, or the process dying there.
      An interrupted WriteData leaves `torn` bytes; `kept` says that the cleanup failed too. */
  datatype Fault = NoFault | Error(at: Step, torn: nat, kept: bool) | Crash(at: Step, torn: nat)

  function Outcome(fault: Fault): Persist {
    if fault.NoFault? then Stored
    else if fault.at.RestrictFile? then FailedAfter
    else FailedBefore
  }

  type Bytes = seq<bv8>

  /** `private`: only the current user may open it. */
  datatype File = File(data: Bytes, private: bool)

  class Directory {
    var files: map<string, File>

    constructor (files: map<string, File>)
      ensures this.files == files
    {
      this.files := files;
    }

    /** The deferred cleanup, which a dead process does not run. */
    method Abandon(temporary: string, fault: Fault)
      requires !fault.NoFault?
      modifies this
      ensures files == if fault.Error? && !fault.kept then old(files) - {temporary} else old(files)
    {
      if fault.Error? && !fault.kept {
        files := files - {temporary};
      }
    }

    /** `created` is how the system makes temporary files. Wherever it stops, no file that
        others may open holds any of the data, unless it did so before. */
    method WritePrivateFile(path: string, temporary: string, data: Bytes, created: bool, fault: Fault) returns (ok: bool)
      requires temporary !in files && temporary != path
      modifies this
      ensures ok == Outcome(fault).Stored?
      ensures Outcome(fault).FailedBefore? ==> files - {temporary} == old(files)
      ensures !Outcome(fault).FailedBefore? ==> files == old(files)[path := File(data, true)]
      ensures temporary in files ==> files[temporary].private || files[temporary].data == []
      ensures fault.Error? && !fault.kept ==> temporary !in files
    {
      ghost var before := files;
      if !fault.NoFault? && (fault.at.MakeDirectory? || fault.at.CreateTemporary?) {
        assert files - {temporary} == files;
        return false;
      }
      files := files[temporary := File([], created)];
      assert files - {temporary} == before;
      if !fault.NoFault? && fault.at.RestrictTemporary? {
        Abandon(temporary, fault);
        return false;
      }
      files := files[temporary := files[temporary].(private := true)];
      var torn := !fault.NoFault? && fault.at.WriteData?;
      files := files[temporary := files[temporary].(data := if torn && fault.torn < |data| then data[..fault.torn] else data)];
      assert files - {temporary} == before;
      if !fault.NoFault? && !fault.at.RestrictFile? {
        Abandon(temporary, fault);
        return false;
      }
      files := (files - {temporary})[path := files[temporary]];
      // The last step sets the mode of the final path once more.
      if fault.NoFault? {
        files := files[path := files[path].(private := true)];
      }
      ok := fault.NoFault?;
    }
  }
}
