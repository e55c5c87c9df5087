/**
 * Receipt upload (src/app/api/upload/route.ts): `POST` checks the session
 * and the file, names the file after the request time and answers with its
 * public URL. Writing the file is a parameter of the model (whether it
 * succeeded), as is the request time.
 */
module UploadRoute {
  import opened Wrappers
  import opened TimeGrid
  import BookingWizard

  /** The `file` form field: its name, MIME type and size in bytes. */
  datatype UploadFile = UploadFile(name: string, mimeType: string, size: int)

  datatype UploadResponse = Url(status: int, url: string) | Error(status: int, error: string)

  const AllowedTypes: seq<string> := ["image/jpeg", "image/png", "image/webp", "image/jpg"]
  const MaxSize: int := 5 * 1024 * 1024

  /** `name.split('.').pop()`: the text after the last '.', the whole name when there is none. */
  function LastSegment(name: string): string
    decreases |name|
  {
    if |name| == 0 then ""
    else if name[|name| - 1] == '.' then ""
    else LastSegment(name[..|name| - 1]) + [name[|name| - 1]]
  }

  /** Appending a non-'.' character to a name extends a dot-free tail of it by that character. */
  lemma TailSnoc(init: string, c: char, r: string)
    requires c != '.'
    requires |r| <= |init| && r == init[|init| - |r|..]
    requires forall i :: 0 <= i < |r| ==> r[i] != '.'
    requires |r| < |init| ==> init[|init| - |r| - 1] == '.'
    ensures var name := init + [c];
      |r + [c]| <= |name| && r + [c] == name[|name| - |r + [c]|..]
      && (forall i :: 0 <= i < |r + [c]| ==> (r + [c])[i] != '.')
      && (|r + [c]| < |name| ==> name[|name| - |r + [c]| - 1] == '.')
  {
    var name := init + [c];
    assert name[|name| - |r| - 1..] == init[|init| - |r|..] + [c];
    if |r| < |init| {
      assert name[|name| - |r| - 2] == init[|init| - |r| - 1];
    }
  }

  /** The last segment is the tail of the name after its last '.', and holds no '.' itself. */
  lemma {:induction false} LastSegmentSpec(name: string)
    ensures |LastSegment(name)| <= |name| && LastSegment(name) == name[|name| - |LastSegment(name)|..]
    ensures forall i :: 0 <= i < |LastSegment(name)| ==> LastSegment(name)[i] != '.'
    ensures |LastSegment(name)| < |name| ==> name[|name| - |LastSegment(name)| - 1] == '.'
    decreases |name|
  {
    if |name| > 0 && name[|name| - 1] != '.' {
      var init, c := name[..|name| - 1], name[|name| - 1];
      assert name == init + [c];
      LastSegmentSpec(init);
      TailSnoc(init, c, LastSegment(init));
    }
  }

  /** `... || 'jpg'`: an empty last segment (no name, or a name ending in '.') becomes "jpg". */
  function Extension(name: string): (ext: string)
    ensures ext != "" && forall i :: 0 <= i < |ext| ==> ext[i] != '.'
  {
    var last := LastSegment(name);
    LastSegmentSpec(name);
    if last == "" then "jpg" else last
  }

  function Filename(timestamp: nat, name: string): string {
    "receipt_" + NatToString(timestamp) + "." + Extension(name)
  }

  const UrlPrefix: string := "/uploads/receipts/"

  /**
   * The route. `token` is the cookie ("" when absent), `tokenValid` the
   * outcome of verifying it, `form` the parsed form (`None` when parsing
   * throws) with its `file` field, `timestamp` `Date.now()`, and `written`
   * whether creating the directory and writing the file succeeded.
   */
  function Upload(token: string, tokenValid: bool, form: Option<Option<UploadFile>>, timestamp: nat, written: bool): (r: UploadResponse)
    ensures token == "" ==> r == Error(401, "No autorizado")
    ensures token != "" && !tokenValid ==> r == Error(401, "Token inválido")
    ensures r.Url? <==> (token != "" && tokenValid && form.Some? && form.value.Some?
      && form.value.value.mimeType in AllowedTypes && form.value.value.size <= MaxSize && written)
    ensures r.Url? ==> r.status == 201 && r.url == UrlPrefix + Filename(timestamp, form.value.value.name)
  {
    if token == "" then Error(401, "No autorizado")
    else if !tokenValid then Error(401, "Token inválido")
    else if form.None? then Error(500, "Error al subir archivo")
    else if form.value.None? then Error(400, "No se proporcionó archivo")
    else
      var file := form.value.value;
      if file.mimeType !in AllowedTypes then Error(400, "Tipo de archivo no permitido. Usa JPG, PNG o WebP.")
      else if file.size > MaxSize then Error(400, "El archivo es demasiado grande. Máximo 5MB.")
      else if !written then Error(500, "Error al subir archivo")
      else Url(201, UrlPrefix + Filename(timestamp, file.name))
  }

  /** The checks run in order: a failing earlier check decides the answer whatever the later inputs are. */
  lemma CheckOrder(token: string, tokenValid: bool, file: UploadFile, timestamp: nat, written: bool)
    requires token != "" && tokenValid
    ensures Upload(token, tokenValid, Some(None), timestamp, written) == Error(400, "No se proporcionó archivo")
    ensures file.mimeType !in AllowedTypes ==>
      Upload(token, tokenValid, Some(Some(file)), timestamp, written) == Error(400, "Tipo de archivo no permitido. Usa JPG, PNG o WebP.")
    ensures file.mimeType in AllowedTypes && file.size > MaxSize ==>
      Upload(token, tokenValid, Some(Some(file)), timestamp, written) == Error(400, "El archivo es demasiado grande. Máximo 5MB.")
  {
  }

  /** A file of exactly 5 MiB is stored; one byte more is refused. */
  lemma SizeBoundary(token: string, name: string, timestamp: nat)
    requires token != ""
    ensures Upload(token, true, Some(Some(UploadFile(name, "image/png", 5242880))), timestamp, true).Url?
    ensures Upload(token, true, Some(Some(UploadFile(name, "image/png", 5242881))), timestamp, true).status == 400
  {
    assert "image/png" == AllowedTypes[1];
  }

  /** Characters without a '.' extend the last segment. */
  lemma {:induction false} LastSegmentAppend(prefix: string, tail: string)
    requires forall i :: 0 <= i < |tail| ==> tail[i] != '.'
    ensures LastSegment(prefix + tail) == LastSegment(prefix) + tail
    decreases |tail|
  {
    if |tail| > 0 {
      var init := tail[..|tail| - 1];
      LastSegmentAppend(prefix, init);
      assert (prefix + tail)[..|prefix + tail| - 1] == prefix + init;
      assert init + [tail[|tail| - 1]] == tail;
    } else {
      assert prefix + tail == prefix;
    }
  }

  /**
   * The extension rule: the text after the last '.' when it is not empty,
   * the whole name when it has no '.', and "jpg" for a name ending in '.'.
   */
  lemma ExtensionCases(base: string, ext: string)
    requires ext != "" && forall i :: 0 <= i < |ext| ==> ext[i] != '.'
    ensures Extension(base + "." + ext) == ext
    ensures Extension(ext) == ext
    ensures Extension(base + ".") == "jpg"
  {
    LastSegmentAppend(base + ".", ext);
    LastSegmentAppend("", ext);
    assert "" + ext == ext;
  }

  /**
   * The stored name reads back: the timestamp is the digits after
   * "receipt_" up to the first '.', and the extension is what follows it,
   * so requests at different times get different names.
   */
  lemma FilenameRoundTrip(timestamp: nat, name: string)
    ensures var f := Filename(timestamp, name);
      var digits := NatToString(timestamp);
      && |f| > 9 + |digits| && f[..8] == "receipt_" && f[8..8 + |digits|] == digits && f[8 + |digits|] == '.'
      && ParseNat(f[8..8 + |digits|]) == timestamp && f[9 + |digits|..] == Extension(name)
  {
    var digits := NatToString(timestamp);
    var ext := Extension(name);
    var f := Filename(timestamp, name);
    assert f == "receipt_" + digits + "." + ext;
    assert f[..8] == "receipt_";
    assert f[8..8 + |digits|] == digits;
    assert f[8 + |digits|] == '.';
    assert f[9 + |digits|..] == ext;
    NatRoundTrip(timestamp);
  }

  lemma FilenameInjective(t1: nat, t2: nat, name1: string, name2: string)
    requires Filename(t1, name1) == Filename(t2, name2)
    ensures t1 == t2 && Extension(name1) == Extension(name2)
  {
    FilenameRoundTrip(t1, name1);
    FilenameRoundTrip(t2, name2);
  }

  /**
   * The booking page accepts fewer files than the route: every file its
   * picker takes passes the route's checks, but "image/jpg" passes only
   * the route's.
   */
  lemma PickerStricterThanRoute(file: UploadFile)
    ensures BookingWizard.FileCheck(BookingWizard.ReceiptFile(file.mimeType, file.size)).None? ==>
      file.mimeType in AllowedTypes && file.size <= MaxSize
    ensures file.mimeType == "image/jpg" ==>
      BookingWizard.FileCheck(BookingWizard.ReceiptFile(file.mimeType, file.size)).Some? && file.mimeType in AllowedTypes
  {
    assert AllowedTypes[..3] == BookingWizard.AcceptedTypes;
    assert "image/jpg" == AllowedTypes[3];
    assert "image/jpg" !in BookingWizard.AcceptedTypes by {
      assert "image/jpg" != BookingWizard.AcceptedTypes[0];
      assert "image/jpg" != BookingWizard.AcceptedTypes[1];
      assert "image/jpg" != BookingWizard.AcceptedTypes[2];
    }
  }
}
