/** The cache item as the object it is in src/fileitem.cc: its methods update fields and files in
    place, and each is shown to do what the function of the same name in FileItem does. */
module StorageItem {
  import opened Text
  import opened ItemStatus
  import F = FileItem

  lemma OverwriteTwice(c: string, at: nat, a: string, b: string)
    ensures F.Overwrite(F.Overwrite(c, at, a), at + |a|, b) == F.Overwrite(c, at, a + b)
  {
    if a == "" {
      assert a + b == b;
    } else if b == "" {
      assert a + b == a;
    } else if at <= |c| {
      OverwriteInside(c, at, a, b);
    } else {
      var zeros := seq(at - |c|, _ => '\0');
      var once := c + zeros + a;
      assert |once| == at + |a| && once[..at + |a|] == once;
      assert once + b + "" == c + zeros + (a + b);
    }
  }

  lemma OverwriteInside(c: string, at: nat, a: string, b: string)
    requires a != "" && b != "" && at <= |c|
    ensures F.Overwrite(F.Overwrite(c, at, a), at + |a|, b) == F.Overwrite(c, at, a + b)
  {
    var tail := if at + |a| <= |c| then c[at + |a|..] else "";
    var once := c[..at] + a + tail;
    assert once[..at + |a|] == c[..at] + a;
    if at + |a| + |b| <= |once| {
      assert once[at + |a| + |b|..] == tail[|b|..] == c[at + |a| + |b|..];
    }
    var rest := if at + |a| + |b| <= |c| then c[at + |a| + |b|..] else "";
    assert c[..at] + a + b + rest == c[..at] + (a + b) + rest;
  }

  class FileItemWithStorage {
    var status: Status
    var sizeInitial: int
    var sizeChecked: int
    var contLen: int
    var date: Option<F.Date>
    var code: int
    var mustReplace: bool
    var volatile: bool
    var destroy: F.Destroy
    var refs: nat
    // the files, what the path and the descriptor name, and the descriptor's position
    var inodes: seq<string>
    var path: Option<nat>
    var fd: Option<nat>
    var pos: nat
    var head: F.HeadFile

    function State(): F.Fi
      reads this
    {
      F.Fi(status, sizeInitial, sizeChecked, contLen, date, code, mustReplace, volatile, destroy, refs, inodes, path, fd, pos, head)
    }

    constructor (volatile: bool, inodes: seq<string>, path: Option<nat>, head: F.HeadFile)
      ensures State() == F.Fi(Fresh, -1, -1, -1, None, 0, false, volatile, F.Keep, 0, inodes, path, None, 0, head)
    {
      status, sizeInitial, sizeChecked, contLen, date, code := Fresh, -1, -1, -1, None, 0;
      mustReplace, destroy, refs, fd, pos := false, F.Keep, 0, None, 0;
      this.volatile, this.inodes, this.path, this.head := volatile, inodes, path, head;
    }

    method ErrorClean()
      modifies this
      ensures State() == F.ErrorClean(old(State()))
    {
      sizeInitial, sizeChecked, contLen := -1, -1, -1;
      mustReplace := true;
      status := Inited;
    }

    method Setup() returns (r: Status)
      modifies this
      ensures State() == F.Setup(old(State())) && r == status
    {
      hide F.ErrorClean, F.JudgeCached;
      if !status.Fresh? { return status; }
      status := Inited;
      sizeInitial := if path.None? then -1 else if path.value < |inodes| then |inodes[path.value]| else 0;
      sizeChecked := -1;
      if head.Unusable? {
        ErrorClean();
        return status;
      }
      if head.Stored? {
        contLen := head.contLen;
        date := head.date;
      }
      code := 200;
      JudgeCached();
      return status;
    }

    /** The end of Setup: is the file complete, too long, or to be checked with the server? */
    method JudgeCached()
      modifies this
      ensures State() == F.JudgeCached(old(State()))
    {
      if volatile { return; }
      if contLen < 0 {
        volatile := true;
        return;
      }
      if contLen < sizeInitial {
        ErrorClean();
        return;
      }
      if sizeInitial == contLen {
        sizeChecked := sizeInitial;
        status := Complete;
      } else {
        volatile := true;
      }
    }

    method DlSetError(errCode: int, mode: F.Destroy)
      modifies `code, `status, `destroy
      ensures State() == F.SetError(old(State()), errCode, mode)
    {
      code := errCode;
      status := DlError;
      if F.Severity(mode) < F.Severity(destroy) {
        destroy := mode;
      }
    }

    method MarkFaulty(killFile: bool)
      modifies `code, `status, `destroy
      ensures State() == F.MarkFaulty(old(State()), killFile)
      ensures old(destroy).Keep? ==> destroy.Keep?
    {
      DlSetError(500, if killFile then F.Delete else F.Truncate);
    }

    method DlFinish(forceUpdateHeader: bool)
      modifies this
      ensures State() == F.DlFinish(old(State()), forceUpdateHeader)
    {
      if Order(status) > 5 { return; }
      status := Complete;
      if contLen < 0 || forceUpdateHeader {
        if contLen < 0 { contLen := sizeChecked; }
        if destroy.Keep? { head := F.Stored(contLen, date); }
      }
    }

    method DlRefCountAdd()
      modifies `refs
      ensures State() == F.RefAdd(old(State()))
    {
      refs := refs + 1;
    }

    method DlRefCountDec(reason: int)
      requires refs > 0
      modifies `refs, `code, `status, `destroy
      ensures State() == F.RefDec(old(State()), reason)
    {
      refs := refs - 1;
      if refs > 0 { return; }
      if Order(status) < 5 {
        DlSetError(reason, destroy);
      }
    }

    method DlStarted(modDate: Option<F.Date>, respCode: int, seek: int, announced: int) returns (ok: bool)
      modifies this
      ensures (State(), ok) == F.DlStarted(old(State()), modDate, respCode, seek, announced)
    {
      if Order(status) >= 3 {
        if contLen != announced && contLen != -1 { return false; }
        if modDate != date { return false; }
        if seek > sizeChecked { return false; }
      } else {
        contLen := -1;
      }
      status := DlGotHead;
      if seek >= 0 {
        if sizeChecked >= 0 && seek < sizeChecked { return false; }
        sizeChecked := seek;
      }
      code := respCode;
      date := modDate;
      contLen := announced;
      return true;
    }

    method WithError(mode: F.Destroy) returns (ok: bool)
      modifies `code, `status, `destroy
      ensures State() == F.SetError(old(State()), 500, mode) && !ok
    {
      DlSetError(500, mode);
      return false;
    }

    method ReplaceFile(d: F.Disk) returns (ok: bool)
      modifies this
      ensures (State(), ok) == F.ReplaceFile(old(State()), d)
    {
      fd := None;
      mustReplace := false;
      if !d.createOk || !d.moveOk {
        ok := WithError(F.Keep);
        return;
      }
      if !d.renameOk {
        path := None;
        ok := WithError(F.Keep);
        return;
      }
      inodes := inodes + [""];
      path, fd, pos := Some(|inodes| - 1), Some(|inodes| - 1), 0;
      return true;
    }

    /** SafeOpenOutFile up to the point where some file is open. */
    method OpenSome(d: F.Disk) returns (ok: bool)
      requires F.FilesExist(State()) && fd.None?
      modifies this
      ensures var f := old(State());
        (State(), ok) == if f.mustReplace || f.contLen < 0 then F.ReplaceFile(f, d) else F.OpenInPlace(f, d)
      ensures F.FilesExist(State()) && (ok ==> fd.Some?)
    {
      if mustReplace || contLen < 0 {
        ok := ReplaceFile(d);
        if !ok { return; }
      }
      if fd.None? && d.openOk {
        if path.None? {
          inodes := inodes + [""];
          path := Some(|inodes| - 1);
        }
        fd, pos := path, 0;
      }
      if fd.None? {
        ok := ReplaceFile(d);
        return;
      }
      return true;
    }

    /** The rest of it: the file must not be longer than announced, nor shorter than checked. */
    method SeekToChecked(d: F.Disk) returns (ok: bool)
      requires F.FilesExist(State()) && fd.Some?
      modifies this
      ensures (State(), ok) == F.FinishOpen(old(State()), d)
    {
      if !d.seekOk {
        ok := WithError(F.Keep);
        return;
      }
      var sizeOnDisk := |inodes[fd.value]|;
      if sizeOnDisk > contLen {
        ok := ReplaceFile(d);
        if !ok { return; }
        sizeOnDisk := 0;
      }
      if sizeChecked < 0 { sizeChecked := 0; }
      pos := sizeChecked;
      if sizeChecked > sizeOnDisk || !d.headOk {
        ok := WithError(F.Keep);
        return;
      }
      head := F.Stored(contLen, date);
      status := DlReceiving;
      return true;
    }

    method SafeOpenOutFile(d: F.Disk) returns (ok: bool)
      requires F.FilesExist(State())
      modifies this
      ensures (State(), ok) == F.SafeOpenOutFile(old(State()), d)
    {
      hide F.ReplaceFile, F.OpenInPlace, F.FinishOpen;
      fd := None;
      ok := OpenSome(d);
      if ok { ok := SeekToChecked(d); }
    }

    /** DlAddData; each entry of `takes` is what one write call returns, zero for a fatal error,
        and a last call takes what is left. `wrote` is how much got into the file. */
    method DlAddData(data: string, d: F.Disk, takes: seq<nat>) returns (ok: bool, ghost wrote: nat)
      requires F.FilesExist(State())
      modifies this
      ensures (State(), ok) == F.DlAddData(old(State()), data, d, wrote)
      ensures wrote <= |data|
      ensures 0 !in takes ==> wrote == |data|
    {
      hide F.SafeOpenOutFile, F.Overwrite, F.Write;
      wrote := |data|;
      if fd.None? {
        ok := SafeOpenOutFile(d);
        if !ok { return; }
      }
      if fd.None? || Order(status) < 3 {
        ok := WithError(F.Keep);
        return;
      }
      if Order(status) > 5 { return false, |data|; }
      ghost var was := State();
      StillThere(old(State()), d);
      var chunk, i := data, 0;
      wrote := 0;
      Nothing(was);
      assert data[..0] == "" && data[0..] == data;
      while chunk != ""
        invariant wrote + |chunk| == |data| && chunk == data[wrote..] && F.FilesExist(was) && was.fd.Some?
        invariant State() == F.Write(was, data[..wrote]) && F.FilesExist(State()) && fd.Some?
        decreases |chunk|
      {
        var r := if i < |takes| && takes[i] <= |chunk| then takes[i] else |chunk|;
        if r == 0 {
          ok := WithError(F.Keep);
          return;
        }
        i := i + 1;
        More(was, data[..wrote], chunk[..r]);
        assert data[..wrote] + chunk[..r] == data[..wrote + r];
        WriteSome(chunk[..r]);
        chunk := chunk[r..];
        wrote := wrote + r;
      }
      assert data[..wrote] == data;
      return true, wrote;
    }

    method WriteSome(part: string)
      requires F.FilesExist(State()) && fd.Some?
      modifies `inodes, `pos, `sizeChecked
      ensures State() == F.Write(old(State()), part) && F.FilesExist(State()) && fd == old(fd)
    {
      inodes := inodes[fd.value := F.Overwrite(inodes[fd.value], pos, part)];
      pos := pos + |part|;
      sizeChecked := sizeChecked + |part|;
    }

    static lemma StillThere(fi: F.Fi, d: F.Disk)
      requires F.FilesExist(fi)
      ensures F.FilesExist(F.SafeOpenOutFile(fi, d).0)
    {
      hide F.ReplaceFile, F.OpenInPlace, F.FinishOpen;
      var f := fi.(fd := None);
      ReplaceThere(f, d);
      InPlaceThere(f, d);
      var (g, ok) := if f.mustReplace || f.contLen < 0 then F.ReplaceFile(f, d) else F.OpenInPlace(f, d);
      if ok { FinishThere(g, d); }
    }

    static lemma ReplaceThere(fi: F.Fi, d: F.Disk)
      requires F.FilesExist(fi)
      ensures var (f, ok) := F.ReplaceFile(fi, d); F.FilesExist(f) && (ok ==> f.fd.Some?)
    {
    }

    static lemma InPlaceThere(fi: F.Fi, d: F.Disk)
      requires F.FilesExist(fi)
      ensures var (f, ok) := F.OpenInPlace(fi, d); F.FilesExist(f) && (ok ==> f.fd.Some?)
    {
      hide F.ReplaceFile;
      ReplaceThere(fi, d);
    }

    static lemma FinishThere(fi: F.Fi, d: F.Disk)
      requires F.FilesExist(fi) && fi.fd.Some?
      ensures F.FilesExist(F.FinishOpen(fi, d).0)
    {
      hide F.ReplaceFile;
      ReplaceThere(fi, d);
    }

    static lemma Nothing(fi: F.Fi)
      requires F.FilesExist(fi) && fi.fd.Some?
      ensures F.Write(fi, "") == fi
    {
      var c := fi.inodes[fi.fd.value];
      assert F.Overwrite(c, fi.pos, "") == c;
    }

    /** Two writes, one after the other, are one. */
    static lemma More(fi: F.Fi, a: string, b: string)
      requires F.FilesExist(fi) && fi.fd.Some?
      ensures F.Write(F.Write(fi, a), b) == F.Write(fi, a + b)
    {
      var n := fi.fd.value;
      OverwriteTwice(fi.inodes[n], fi.pos, a, b);
    }
  }
}
