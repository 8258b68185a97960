/**
 * The attachment picker of the contact form
 * (preview/src/components/ui/file-upload.tsx): which picked files are kept,
 * the per-file complaints, the limit on the number of files, removing one,
 * and dropping files onto the zone. A file is its name and its size in
 * bytes; `onFilesChange` is recorded as the list it would receive.
 */
module FileUpload {
  import opened Wrappers
  import opened Strings
  import opened Seqs

  datatype Upload = Upload(name: string, size: int)

  /** The component's props that decide what is kept; the size limit is in megabytes. */
  datatype Limits = Limits(maxFiles: int, maxSizeMb: real, acceptedTypes: seq<string>)

  const DefaultLimits := Limits(3, 10.0, [".pdf", ".doc", ".docx", ".png", ".jpg", ".jpeg"])

  const Mebibyte: real := 1048576.0

  /**
   * `'.' + name.split('.').pop().toLowerCase()`: a dot and the lower-cased
   * text after the last dot, or after a dot the whole name when it has none.
   */
  function Extension(name: string): (r: string)
    ensures |r| >= 1 && r[0] == '.' && '.' !in r[1..]
  {
    var tail := AfterLast(name, '.');
    assert forall i :: 0 <= i < |tail| ==> Lower(tail)[i] != '.';
    "." + Lower(tail)
  }

  /** The extension is what follows the last dot. */
  lemma ExtensionOf(base: string, ext: string)
    requires '.' !in ext
    ensures Extension(base + "." + ext) == "." + Lower(ext)
  {
    SplitLastAfter(base, ext, '.');
    assert base + "." + ext == base + ['.'] + ext;
  }

  /** A name without a dot is read whole, so a file called "pdf" counts as a ".pdf". */
  lemma NoDotReadsWholeName(name: string)
    requires '.' !in name
    ensures Extension(name) == "." + Lower(name)
  {
    AfterLastNoSep(name, '.');
  }

  predicate TooLarge(f: Upload, lim: Limits)
  {
    f.size as real > lim.maxSizeMb * Mebibyte
  }

  /** Kept: within the size limit and of an accepted type. */
  predicate Accepted(f: Upload, lim: Limits)
  {
    !TooLarge(f, lim) && Extension(f.name) in lim.acceptedTypes
  }

  /** The complaints the picker collects. */
  datatype UploadError = FileTooLarge(file: string) | NotAcceptedType(file: string) | TooManyFiles(max: int)

  /** A file's complaint, if any: the size is checked before the type. */
  function Complaint(f: Upload, lim: Limits): (r: Option<UploadError>)
    ensures r.None? <==> Accepted(f, lim)
    ensures TooLarge(f, lim) ==> r == Some(FileTooLarge(f.name))
    ensures !TooLarge(f, lim) && !Accepted(f, lim) ==> r == Some(NotAcceptedType(f.name))
  {
    if TooLarge(f, lim) then Some(FileTooLarge(f.name))
    else if Extension(f.name) !in lim.acceptedTypes then Some(NotAcceptedType(f.name))
    else None
  }

  /** The complaints for the picked files, in their order. */
  function Complaints(picked: seq<Upload>, lim: Limits): (r: seq<UploadError>)
    ensures |r| + |Filter(picked, (f: Upload) => Accepted(f, lim))| == |picked|
    decreases |picked|
  {
    if |picked| == 0 then []
    else
      var rest := Complaints(picked[1..], lim);
      match Complaint(picked[0], lim)
      case Some(e) => [e] + rest
      case None => rest
  }

  function Valid(picked: seq<Upload>, lim: Limits): seq<Upload>
  {
    Filter(picked, (f: Upload) => Accepted(f, lim))
  }

  /** What a pick leaves behind: the list, what `onFilesChange` received, and what was logged. */
  datatype Picked = Picked(files: seq<Upload>, notified: Option<seq<Upload>>, warned: seq<UploadError>)

  /**
   * `handleFileSelect` as the source writes it: when the kept files would
   * exceed `maxFiles` it returns before the complaints are logged, so the
   * "Maximum files" complaint it has just collected is never shown.
   */
  function HandleFileSelectAsWritten(files: seq<Upload>, picked: Option<seq<Upload>>, lim: Limits, hasCallback: bool): (r: Picked)
    ensures picked.Some? && |files| + |Valid(picked.value, lim)| > lim.maxFiles ==> r.warned == []
  {
    match picked
    case None => Picked(files, None, [])
    case Some(sel) =>
      var valid := Valid(sel, lim);
      if |files| + |valid| > lim.maxFiles then Picked(files, None, [])
      else Added(files, valid, hasCallback, Complaints(sel, lim))
  }

  /** The append step: something kept is appended and reported; nothing kept changes nothing. */
  function Added(files: seq<Upload>, valid: seq<Upload>, hasCallback: bool, warned: seq<UploadError>): (r: Picked)
    ensures r.files == files + valid
    ensures r.notified.Some? <==> hasCallback && |valid| > 0
    ensures r.notified.Some? ==> r.notified.value == r.files
    ensures r.warned == warned
  {
    if |valid| > 0 then Picked(files + valid, if hasCallback then Some(files + valid) else None, warned)
    else Picked(files, None, warned)
  }

  /**
   * `handleFileSelect`, with every collected complaint logged: no list (a
   * cancelled dialog) changes nothing; otherwise the acceptable files are
   * appended all together, or none of them when the total would pass
   * `maxFiles`, and the callback hears of the new list only when something
   * was appended.
   */
  function HandleFileSelect(files: seq<Upload>, picked: Option<seq<Upload>>, lim: Limits, hasCallback: bool): (r: Picked)
    ensures picked.None? ==> r == Picked(files, None, [])
    ensures picked.Some? && |files| + |Valid(picked.value, lim)| > lim.maxFiles ==>
      && r.files == files && r.notified.None?
      && r.warned == Complaints(picked.value, lim) + [TooManyFiles(lim.maxFiles)]
    ensures picked.Some? && |files| + |Valid(picked.value, lim)| <= lim.maxFiles ==>
      r.files == files + Valid(picked.value, lim) && r.warned == Complaints(picked.value, lim)
    ensures |r.files| >= |files| && r.files[..|files|] == files
    ensures forall i :: |files| <= i < |r.files| ==> Accepted(r.files[i], lim)
    ensures |files| <= lim.maxFiles ==> |r.files| <= lim.maxFiles
    ensures r.notified.Some? <==> hasCallback && |r.files| > |files|
    ensures r.notified.Some? ==> r.notified.value == r.files
  {
    match picked
    case None => Picked(files, None, [])
    case Some(sel) =>
      var valid := Valid(sel, lim);
      if |files| + |valid| > lim.maxFiles then Picked(files, None, Complaints(sel, lim) + [TooManyFiles(lim.maxFiles)])
      else
        var r := Added(files, valid, hasCallback, Complaints(sel, lim));
        assert r.files[..|files|] == files;
        r
  }

  /** When nothing would overflow, both versions agree. */
  lemma AsWrittenAgreesWithinLimit(files: seq<Upload>, picked: Option<seq<Upload>>, lim: Limits, hasCallback: bool)
    requires picked.None? || |files| + |Valid(picked.value, lim)| <= lim.maxFiles
    ensures HandleFileSelectAsWritten(files, picked, lim, hasCallback) == HandleFileSelect(files, picked, lim, hasCallback)
  {
  }

  /** One accepted file too many: the as-written picker logs nothing, the corrected one names the limit. */
  lemma TooManyWarningLost(f: Upload)
    requires Accepted(f, DefaultLimits)
    ensures HandleFileSelectAsWritten([f, f, f], Some([f]), DefaultLimits, true).warned == []
    ensures TooManyFiles(3) in HandleFileSelect([f, f, f], Some([f]), DefaultLimits, true).warned
  {
    assert Valid([f], DefaultLimits) == [f];
  }

  /** Every acceptable picked file is appended unless the limit stops the whole pick. */
  lemma AcceptedFileAdded(files: seq<Upload>, sel: seq<Upload>, lim: Limits, hasCallback: bool, f: Upload)
    requires f in sel && Accepted(f, lim)
    requires |files| + |Valid(sel, lim)| <= lim.maxFiles
    ensures f in HandleFileSelect(files, Some(sel), lim, hasCallback).files
  {
    var i :| 0 <= i < |sel| && sel[i] == f;
    var valid := Valid(sel, lim);
    assert f in valid;
    assert f in files + valid;
  }

  /** A rejected file is never appended; it is logged once, with its reason. */
  lemma RejectedFileComplained(sel: seq<Upload>, lim: Limits, f: Upload)
    requires f in sel && !Accepted(f, lim)
    ensures f !in Valid(sel, lim)
    ensures Complaint(f, lim).Some? && Complaint(f, lim).value in Complaints(sel, lim)
  {
    ComplaintListed(sel, lim, f);
  }

  lemma {:induction false} ComplaintListed(sel: seq<Upload>, lim: Limits, f: Upload)
    requires f in sel && !Accepted(f, lim)
    ensures Complaint(f, lim).Some? && Complaint(f, lim).value in Complaints(sel, lim)
    decreases |sel|
  {
    if sel[0] != f {
      ComplaintListed(sel[1..], lim, f);
    }
  }

  /** The size limit is inclusive: exactly `maxSize` megabytes passes, one byte more does not. */
  lemma SizeLimitInclusive(name: string, mb: nat, types: seq<string>)
    requires Extension(name) in types
    ensures Accepted(Upload(name, mb * 1048576), Limits(3, mb as real, types))
    ensures Complaint(Upload(name, mb * 1048576 + 1), Limits(3, mb as real, types)) == Some(FileTooLarge(name))
  {
  }

  /**
   * `removeFile(index)`: the files at every other position, in order; an
   * index outside the list keeps them all.
   */
  function RemoveFile(files: seq<Upload>, index: int): (r: seq<Upload>)
    ensures 0 <= index < |files| ==> r == files[..index] + files[index + 1..]
    ensures !(0 <= index < |files|) ==> r == files
  {
    KeepOthers(files, index, 0)
  }

  /** `files.filter((_, i) => i !== index)` over the suffix starting at position `offset`. */
  function KeepOthers(files: seq<Upload>, index: int, offset: int): (r: seq<Upload>)
    ensures offset <= index < offset + |files| ==> r == files[..index - offset] + files[index - offset + 1..]
    ensures !(offset <= index < offset + |files|) ==> r == files
    decreases |files|
  {
    if |files| == 0 then []
    else
      var rest := KeepOthers(files[1..], index, offset + 1);
      if offset == index then
        assert files[1..] == files[..0] + files[1..];
        rest
      else
        assert files == [files[0]] + files[1..];
        if offset + 1 <= index < offset + |files| then
          assert files[..index - offset] == [files[0]] + files[1..][..index - offset - 1];
          assert files[index - offset + 1..] == files[1..][index - offset..];
          [files[0]] + rest
        else
          [files[0]] + rest
  }

  /** Removing the file just appended gives back the list before it. */
  lemma RemoveLastUndoesAppend(files: seq<Upload>, f: Upload)
    ensures RemoveFile(files + [f], |files|) == files
  {
    assert (files + [f])[..|files|] == files;
  }

  /** A removal takes out exactly one file; the callback always hears of the new list. */
  function OnRemove(files: seq<Upload>, index: int, hasCallback: bool): (r: Picked)
    ensures 0 <= index < |files| ==> |r.files| == |files| - 1 && multiset(r.files) + multiset{files[index]} == multiset(files)
    ensures r.notified == if hasCallback then Some(r.files) else None
    ensures r.warned == []
  {
    var kept := RemoveFile(files, index);
    assert 0 <= index < |files| ==> files == files[..index] + [files[index]] + files[index + 1..];
    Picked(kept, if hasCallback then Some(kept) else None, [])
  }

  /** The drop zone: its highlight, and the files a drop hands to the picker. */
  datatype Zone = Zone(files: seq<Upload>, isDragOver: bool)

  /** `handleDragOver`: the highlight comes on only when the picker is enabled. */
  function DragOver(z: Zone, disabled: bool): (r: Zone)
    ensures r.files == z.files
    ensures disabled ==> r.isDragOver == z.isDragOver
    ensures !disabled ==> r.isDragOver
  {
    if disabled then z else z.(isDragOver := true)
  }

  /** `handleDrop`: the highlight goes off; a disabled picker ignores the files. */
  function Drop(z: Zone, dropped: seq<Upload>, lim: Limits, disabled: bool, hasCallback: bool): (r: Zone)
    ensures !r.isDragOver
    ensures disabled ==> r.files == z.files
    ensures !disabled ==> r.files == HandleFileSelect(z.files, Some(dropped), lim, hasCallback).files
  {
    if disabled then z.(isDragOver := false)
    else Zone(HandleFileSelect(z.files, Some(dropped), lim, hasCallback).files, false)
  }

  /** A highlight never appears over a disabled picker that started without one. */
  lemma DisabledNeverHighlights(z: Zone, dropped: seq<Upload>, lim: Limits, hasCallback: bool)
    requires !z.isDragOver
    ensures !DragOver(z, true).isDragOver
    ensures Drop(DragOver(z, true), dropped, lim, true, hasCallback) == z
  {
  }
}
