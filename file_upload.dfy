/**
 * The shared file picker: a chosen or dropped file is checked against the
 * size limit and the `accept` list before it is handed to the page.
 */
module FileUpload {
  import opened Wrappers
  import opened Types
  import Strings
  import Slug

  /** The default size limit: 10 MiB. */
  const DefaultMaxSize: nat := 10 * 1024 * 1024

  /** Why a file is refused: too large for the limit, or of a type not in `accept`. */
  datatype FileError = TooLarge(maxSize: nat) | UnsupportedType(accept: string)

  /** `'.' + name.split('.').pop().toLowerCase()`: the last dot-separated piece, or the whole name. */
  function Extension(name: string): string {
    var pieces := Strings.Split(name, '.');
    "." + Slug.Lower(pieces[|pieces| - 1])
  }

  /** `accept.split(',').map(type => type.trim())`. */
  function AcceptedTypes(accept: string): seq<string> {
    Strings.JsTrimAll(Strings.Split(accept, ','))
  }

  /** `validateFile`: the size is checked first, then the type. */
  function ValidateFile(file: File, accept: string, maxSize: nat): (r: Option<FileError>)
    ensures r == Some(TooLarge(maxSize)) <==> file.size > maxSize
    ensures r == Some(UnsupportedType(accept)) <==> file.size <= maxSize && Extension(file.name) !in AcceptedTypes(accept)
    ensures r.None? <==> file.size <= maxSize && Extension(file.name) in AcceptedTypes(accept)
  {
    if file.size > maxSize then Some(TooLarge(maxSize))
    else if Extension(file.name) !in AcceptedTypes(accept) then Some(UnsupportedType(accept))
    else None
  }

  /** A file exactly at the limit passes the size check. */
  lemma SizeAtLimitPasses(file: File, accept: string)
    requires file.size == DefaultMaxSize
    ensures ValidateFile(file, accept, DefaultMaxSize) != Some(TooLarge(DefaultMaxSize))
  {
  }

  /** A name with a dot: the extension is the lowered text after the last dot. */
  lemma ExtensionAfterLastDot(stem: string, ext: string)
    requires '.' !in ext
    ensures Extension(stem + "." + ext) == "." + Slug.Lower(ext)
  {
    Strings.SplitAppend(stem, ext, '.');
    Strings.SplitNoSeparator(ext, '.');
    assert stem + "." + ext == stem + ['.'] + ext;
  }

  /** A name without a dot: the extension is the whole lowered name. */
  lemma ExtensionWithoutDot(name: string)
    requires '.' !in name
    ensures Extension(name) == "." + Slug.Lower(name)
  {
    Strings.SplitNoSeparator(name, '.');
  }

  predicate HasAsciiUpper(s: string) {
    exists i :: 0 <= i < |s| && 'A' <= s[i] <= 'Z'
  }

  lemma LowerCharHasNoUpper(c: char)
    ensures !HasAsciiUpper(Slug.LowerChar(c))
  {
    var r := Slug.LowerChar(c);
    if 'A' <= c <= 'Z' {
      assert r == [Strings.AsciiLower(c)];
    } else if c == '\U{212A}' || c == '\U{0130}' {
    } else {
      assert r == [c];
    }
  }

  lemma {:induction false} LowerHasNoUpper(s: string)
    ensures !HasAsciiUpper(Slug.Lower(s))
  {
    if s != [] {
      LowerCharHasNoUpper(s[0]);
      LowerHasNoUpper(s[1..]);
      var a, b := Slug.LowerChar(s[0]), Slug.Lower(s[1..]);
      assert Slug.Lower(s) == a + b;
      forall i | 0 <= i < |a + b| ensures !('A' <= (a + b)[i] <= 'Z') {
        if i < |a| {
          assert (a + b)[i] == a[i];
        } else {
          assert (a + b)[i] == b[i - |a|];
        }
      }
    }
  }

  /** A dot followed by lower-cased text has no capital either. */
  lemma DotLowerHasNoUpper(low: string)
    requires !HasAsciiUpper(low)
    ensures !HasAsciiUpper("." + low)
  {
    forall i | 0 <= i < |"." + low| ensures !('A' <= ("." + low)[i] <= 'Z') {
      if i > 0 {
        assert ("." + low)[i] == low[i - 1];
      }
    }
  }

  /** An `accept` entry with an upper-case ASCII letter matches no file, since the extension is lowered. */
  lemma UpperCaseEntryNeverMatches(file: File, accept: string, maxSize: nat)
    requires forall t :: t in AcceptedTypes(accept) ==> HasAsciiUpper(t)
    ensures ValidateFile(file, accept, maxSize).Some?
  {
    ExtensionHasNoUpper(file.name);
    assert Extension(file.name) !in AcceptedTypes(accept);
  }

  lemma ExtensionHasNoUpper(name: string)
    ensures !HasAsciiUpper(Extension(name))
  {
    var pieces := Strings.Split(name, '.');
    var low := Slug.Lower(pieces[|pieces| - 1]);
    LowerHasNoUpper(pieces[|pieces| - 1]);
    DotLowerHasNoUpper(low);
  }

  lemma LowerPdf()
    ensures Slug.Lower("PDF") == "pdf"
  {
    assert Slug.Lower("F") == "f";
    assert Slug.Lower("DF") == "d" + Slug.Lower("F");
  }

  lemma AcceptPdf()
    ensures AcceptedTypes(".pdf") == [".pdf"]
  {
    Strings.SplitNoSeparator(".pdf", ',');
    Strings.TrimOfUnpadded(".pdf", Strings.Js);
  }

  /** A PDF with an upper-case extension is accepted by the processing page's `.pdf` filter. */
  lemma UpperCaseFileNameAccepted()
    ensures Extension("report.PDF") == ".pdf"
    ensures ValidateFile(File("report.PDF", DefaultMaxSize), ".pdf", DefaultMaxSize).None?
  {
    var name := "report" + "." + "PDF";
    assert name == "report.PDF";
    ExtensionAfterLastDot("report", "PDF");
    LowerPdf();
    assert Extension(name) == ".pdf";
    AcceptPdf();
  }

  class FileInput {
    const accept: string
    const maxSize: nat
    const disabled: bool
    const isUploading: bool
    var dragActive: bool
    var error: Option<FileError>

    /** `maxSize` falls back to the default when the page passes none. */
    constructor (accept: string, maxSize: Option<nat>, disabled: bool, isUploading: bool)
      ensures this.accept == accept && this.disabled == disabled && this.isUploading == isUploading
      ensures this.maxSize == (if maxSize.Some? then maxSize.value else DefaultMaxSize)
      ensures !dragActive && error == None
    {
      this.accept := accept;
      this.maxSize := if maxSize.Some? then maxSize.value else DefaultMaxSize;
      this.disabled := disabled;
      this.isUploading := isUploading;
      dragActive := false;
      error := None;
    }

    /** A valid file clears the error and is handed on; an invalid one only sets the error. */
    method HandleFile(file: File) returns (selected: Option<File>)
      modifies this
      ensures error == ValidateFile(file, accept, maxSize)
      ensures selected.Some? <==> error.None?
      ensures selected.Some? ==> selected.value == file
      ensures dragActive == old(dragActive)
    {
      var validationError := ValidateFile(file, accept, maxSize);
      if validationError.Some? {
        error := validationError;
        return None;
      }
      error := None;
      selected := Some(file);
    }

    /** A drop ends the drag; while disabled or uploading it is ignored, otherwise its first file is handled. */
    method HandleDrop(files: seq<File>) returns (selected: Option<File>)
      modifies this
      ensures !dragActive
      ensures disabled || isUploading || files == [] ==> selected == None && error == old(error)
      ensures !(disabled || isUploading) && files != [] ==>
        error == ValidateFile(files[0], accept, maxSize) && (selected.Some? <==> error.None?)
        && (selected.Some? ==> selected.value == files[0])
    {
      dragActive := false;
      if disabled || isUploading {
        return None;
      }
      if files != [] {
        selected := HandleFile(files[0]);
      } else {
        selected := None;
      }
    }

    /** The hidden input's change handler: its first file, if any, is handled. */
    method HandleInputChange(files: seq<File>) returns (selected: Option<File>)
      modifies this
      ensures dragActive == old(dragActive)
      ensures files == [] ==> selected == None && error == old(error)
      ensures files != [] ==>
        error == ValidateFile(files[0], accept, maxSize) && (selected.Some? <==> error.None?)
        && (selected.Some? ==> selected.value == files[0])
    {
      if files != [] {
        selected := HandleFile(files[0]);
      } else {
        selected := None;
      }
    }

    method HandleDragIn(itemCount: nat)
      modifies this
      ensures dragActive == (old(dragActive) || itemCount > 0) && error == old(error)
    {
      if itemCount > 0 {
        dragActive := true;
      }
    }

    method HandleDragOut()
      modifies this
      ensures !dragActive && error == old(error)
    {
      dragActive := false;
    }
  }
}
