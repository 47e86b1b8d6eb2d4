/** The `/api/upload` routes: accepting and storing an uploaded file, extracting its content
    by MIME type, and two prompts over extracted content (an explanation and a lecture
    analysis). */
module Upload {
  import opened Js
  import opened Http

  // ---------------------------------------------------------------------------
  // Accepting an upload (the multer configuration)

  /** The MIME types the file filter lets through. */
  const AllowedTypes: seq<string> := [
    "application/pdf",
    "text/plain",
    "application/msword",
    DocxType,
    "image/jpeg",
    "image/png",
    "image/gif",
    "video/mp4",
    "video/avi",
    "video/quicktime",
    "audio/mpeg",
    "audio/wav"
  ]

  /** The MIME type of .docx files. It is written as two literals because the verifier does not
      look inside a single literal this long, and `WordTypesUnextractable` needs its first
      characters. */
  const DocxType: string := "application/vnd.openxmlformats-" + "officedocument.wordprocessingml.document"

  /** The largest accepted upload, in bytes: 50 MiB. */
  const MaxFileSize: nat := 50 * 1024 * 1024

  /** A file part as multer sees it before storing it: the form field it came in, the
      client's file name, the declared MIME type and its size in bytes. */
  datatype Incoming = Incoming(fieldname: string, originalname: string, mimetype: string, size: nat)

  /** The file filter: accept a listed MIME type, reject any other with an error. */
  function FileFilter(mimetype: string): (r: Result<()>)
    ensures r.Ok? <==> mimetype in AllowedTypes
    ensures r == Ok(()) || r == Err("Unsupported file type")
  {
    if mimetype in AllowedTypes then Ok(()) else Err("Unsupported file type")
  }

  /** The filter accepts exactly the twelve listed types; every other type is rejected with
      'Unsupported file type'. */
  lemma FileFilterAccepts(mimetype: string)
    ensures FileFilter(mimetype).Ok? <==>
      || mimetype == "application/pdf" || mimetype == "text/plain"
      || mimetype == "application/msword"
      || mimetype == DocxType
      || mimetype == "image/jpeg" || mimetype == "image/png" || mimetype == "image/gif"
      || mimetype == "video/mp4" || mimetype == "video/avi" || mimetype == "video/quicktime"
      || mimetype == "audio/mpeg" || mimetype == "audio/wav"
    ensures FileFilter(mimetype).Err? ==> FileFilter(mimetype) == Err("Unsupported file type")
  {
    if mimetype in AllowedTypes {
      var i :| 0 <= i < |AllowedTypes| && AllowedTypes[i] == mimetype;
    }
  }

  /** Whether multer admits a file: the filter runs when the file part starts, the size limit
      while it is written ('File too large' is multer's message for that limit). */
  function Admit(f: Incoming): (r: Result<()>)
    ensures r.Ok? <==> f.mimetype in AllowedTypes && f.size <= 52428800
    ensures f.mimetype !in AllowedTypes ==> r == Err("Unsupported file type")
    ensures f.mimetype in AllowedTypes && f.size > 52428800 ==> r == Err("File too large")
  {
    match FileFilter(f.mimetype)
    case Err(message) => Err(message)
    case Ok(_) => if f.size > MaxFileSize then Err("File too large") else Ok(())
  }

  // ---------------------------------------------------------------------------
  // Storing an upload

  /** The directory files are stored in. */
  const UploadsDir: string := "uploads/"

  /** The one form field the route takes its file from (`upload.single('file')`). */
  const FieldName: string := "file"

  /** The unique part of a stored name: the time of the upload in milliseconds and a random
      integer, joined by '-'. */
  function UniqueSuffix(timestamp: nat, random: nat): (u: string)
    ensures u != [] && forall i :: 0 <= i < |u| ==> IsDigit(u[i]) || u[i] == '-'
  {
    NatToDecimal(timestamp) + "-" + NatToDecimal(random)
  }

  /** The `filename` callback: the field name, '-', the unique suffix, and the extension of the
      client's file name. The clock and the random source are parameters. */
  function StoredFilename(fieldname: string, timestamp: nat, random: nat, originalname: string): string {
    fieldname + "-" + UniqueSuffix(timestamp, random) + Extname(originalname)
  }

  lemma DigitsHaveNo(s: string, c: char)
    requires AllDigits(s) && !IsDigit(c)
    ensures c !in s
  {
  }

  /** The part of a stored name before its extension has no '.' and ends with a digit. */
  lemma StemHasNoDot(fieldname: string, timestamp: nat, random: nat)
    requires '.' !in fieldname
    ensures var stem := fieldname + "-" + UniqueSuffix(timestamp, random);
      '.' !in stem && stem != [] && stem[|stem| - 1] != '/'
  {
    var t, r := NatToDecimal(timestamp), NatToDecimal(random);
    DigitsHaveNo(t, '.');
    DigitsHaveNo(r, '.');
    var stem := fieldname + "-" + (t + "-" + r);
    assert stem[|stem| - 1] == r[|r| - 1];
    assert IsDigit(r[|r| - 1]);
  }

  /** The stored name starts with the field name and '-', and ends with the extension of the
      client's file name. */
  lemma StoredFilenameFrame(fieldname: string, timestamp: nat, random: nat, originalname: string)
    ensures StartsWith(StoredFilename(fieldname, timestamp, random, originalname), fieldname + "-")
    ensures EndsWith(StoredFilename(fieldname, timestamp, random, originalname), Extname(originalname))
  {
    var u, ext := UniqueSuffix(timestamp, random), Extname(originalname);
    assert StoredFilename(fieldname, timestamp, random, originalname) == (fieldname + "-") + (u + ext);
    PrefixOfConcat(fieldname + "-", u + ext);
    SuffixOfConcat(fieldname + "-" + u, ext);
  }

  /** With a field name free of '.', `path.extname` of the stored name is the extension of the
      client's file name: the stored file keeps its type's extension. */
  lemma StoredFilenameExtension(fieldname: string, timestamp: nat, random: nat, originalname: string)
    requires '.' !in fieldname
    ensures Extname(StoredFilename(fieldname, timestamp, random, originalname)) == Extname(originalname)
  {
    StemHasNoDot(fieldname, timestamp, random);
    ExtnameOfStem(fieldname + "-" + UniqueSuffix(timestamp, random), Extname(originalname));
  }

  lemma DashSplit(a: string, b: string, c: string, d: string)
    requires AllDigits(a) && AllDigits(c)
    requires a + "-" + b == c + "-" + d
    ensures a == c && b == d
  {
    var x := a + "-" + b;
    FirstDash(a, b);
    FirstDash(c, d);
    assert |a| == |c|;
    assert a == x[..|a|] == c;
    assert b == x[|a| + 1..] == d;
  }

  /** In digits, '-', text, the first '-' is the one after the digits. */
  lemma FirstDash(a: string, b: string)
    requires AllDigits(a)
    ensures (a + "-" + b)[|a|] == '-'
    ensures forall k :: 0 <= k < |a| ==> (a + "-" + b)[k] != '-'
  {
    assert forall k :: 0 <= k < |a| ==> (a + "-" + b)[k] == a[k];
  }

  /** Two uploads of the same file in the same field get the same stored name exactly when
      their timestamps and random numbers agree: the suffix tells uploads apart. */
  lemma StoredFilenamesDistinct(fieldname: string, t1: nat, r1: nat, t2: nat, r2: nat, originalname: string)
    ensures StoredFilename(fieldname, t1, r1, originalname) == StoredFilename(fieldname, t2, r2, originalname)
            <==> t1 == t2 && r1 == r2
  {
    var x1, x2 := StoredFilename(fieldname, t1, r1, originalname), StoredFilename(fieldname, t2, r2, originalname);
    if x1 == x2 {
      var lead, ext := |fieldname + "-"|, Extname(originalname);
      var u1, u2 := UniqueSuffix(t1, r1), UniqueSuffix(t2, r2);
      assert x1 == (fieldname + "-") + u1 + ext;
      assert x2 == (fieldname + "-") + u2 + ext;
      assert u1 == x1[lead..|x1| - |ext|];
      assert u2 == x2[lead..|x2| - |ext|];
      DashSplit(NatToDecimal(t1), NatToDecimal(r1), NatToDecimal(t2), NatToDecimal(r2));
      DecimalRoundTrip(t1);
      DecimalRoundTrip(t2);
      DecimalRoundTrip(r1);
      DecimalRoundTrip(r2);
    }
  }

  /** The file as the route sees it once stored (`req.file`). */
  datatype StoredFile = StoredFile(originalname: string, mimetype: string, filename: string, path: string, size: nat)

  /** Storing an admitted file under its generated name in the uploads directory. */
  function Store(f: Incoming, timestamp: nat, random: nat): (s: StoredFile)
    requires Admit(f).Ok?
    ensures s.path == UploadsDir + s.filename
    ensures s.filename == StoredFilename(f.fieldname, timestamp, random, f.originalname)
    ensures s.originalname == f.originalname && s.mimetype == f.mimetype && s.size == f.size <= MaxFileSize
  {
    var filename := StoredFilename(f.fieldname, timestamp, random, f.originalname);
    assert MaxFileSize == 52428800;
    StoredFile(f.originalname, f.mimetype, filename, UploadsDir + filename, f.size)
  }

  // ---------------------------------------------------------------------------
  // Classifying an upload (the `switch (true)` of POST /file)

  /** Which branch of the dispatch a MIME type takes. */
  datatype MimeClass = Pdf | PlainText | Image | Video | Audio | Unextractable

  /** The first case that matches, in the order of the source. */
  function Classify(fileType: string): (c: MimeClass)
    ensures c == Pdf ==> fileType == "application/pdf"
    ensures c == PlainText ==> fileType == "text/plain"
    ensures c == Image ==> StartsWith(fileType, "image/")
    ensures c == Video ==> StartsWith(fileType, "video/")
    ensures c == Audio ==> StartsWith(fileType, "audio/")
    ensures c == Unextractable ==>
      && fileType != "application/pdf" && fileType != "text/plain"
      && !StartsWith(fileType, "image/") && !StartsWith(fileType, "video/") && !StartsWith(fileType, "audio/")
  {
    if fileType == "application/pdf" then Pdf
    else if fileType == "text/plain" then PlainText
    else if StartsWith(fileType, "image/") then Image
    else if StartsWith(fileType, "video/") then Video
    else if StartsWith(fileType, "audio/") then Audio
    else Unextractable
  }

  /** The cases never overlap, so each class is characterised by its own test alone and the
      order of the cases does not matter. */
  lemma ClassifyByOwnTest(fileType: string)
    ensures Classify(fileType) == Pdf <==> fileType == "application/pdf"
    ensures Classify(fileType) == PlainText <==> fileType == "text/plain"
    ensures Classify(fileType) == Image <==> StartsWith(fileType, "image/")
    ensures Classify(fileType) == Video <==> StartsWith(fileType, "video/")
    ensures Classify(fileType) == Audio <==> StartsWith(fileType, "audio/")
    ensures Classify(fileType) == Unextractable <==>
      && fileType != "application/pdf" && fileType != "text/plain"
      && !StartsWith(fileType, "image/") && !StartsWith(fileType, "video/") && !StartsWith(fileType, "audio/")
  {
    if StartsWith(fileType, "image/") { assert fileType[0] == 'i'; }
    if StartsWith(fileType, "video/") { assert fileType[0] == 'v'; }
    if StartsWith(fileType, "audio/") { assert fileType[0] == 'a' && fileType[1] == 'u'; }
  }

  /** The two Word types. */
  const WordTypes: seq<string> := [
    "application/msword",
    DocxType
  ]

  /** The filter accepts both Word types, yet the dispatch has no case for them. */
  lemma WordTypesUnextractable(t: string)
    requires t in WordTypes
    ensures FileFilter(t).Ok?
    ensures Classify(t) == Unextractable
  {
    assert t[0] == 'a' && t[1] == 'p' by {
      assert t == WordTypes[0] || t == WordTypes[1];
    }
    DiffersAt(t, "image/", 0);
    DiffersAt(t, "video/", 0);
    DiffersAt(t, "audio/", 1);
  }

  /** Among the accepted types, exactly the Word types fall into the dispatch's error branch. */
  lemma AllowedTypeClassified(i: nat)
    requires i < |AllowedTypes|
    ensures Classify(AllowedTypes[i]) == Unextractable <==> AllowedTypes[i] in WordTypes
  {
    var t := AllowedTypes[i];
    if i == 2 || i == 3 {
      WordTypesUnextractable(t);
    } else if 7 <= i <= 9 {
      DiffersAt(t, "image/", 0);
    } else if 10 <= i {
      DiffersAt(t, "image/", 0);
      DiffersAt(t, "video/", 0);
    }
  }

  /** The types the dispatch can extract content from: the list without the Word types. */
  const ExtractableTypes: seq<string> := [
    "application/pdf",
    "text/plain",
    "image/jpeg",
    "image/png",
    "image/gif",
    "video/mp4",
    "video/avi",
    "video/quicktime",
    "audio/mpeg",
    "audio/wav"
  ]

  /** A filter that only accepts what the dispatch can extract. */
  function ExtractableFilter(mimetype: string): Result<()> {
    if mimetype in ExtractableTypes then Ok(()) else Err("Unsupported file type")
  }

  /** The corrected filter accepts what the original accepts except the Word types, and every
      type it accepts reaches a branch that extracts content. */
  lemma ExtractableFilterClassifies(mimetype: string)
    ensures ExtractableFilter(mimetype).Ok? <==> FileFilter(mimetype).Ok? && mimetype !in WordTypes
    ensures ExtractableFilter(mimetype).Ok? ==> Classify(mimetype) != Unextractable
  {
    if mimetype in ExtractableTypes {
      var i :| 0 <= i < |ExtractableTypes| && ExtractableTypes[i] == mimetype;
      ClassifyByOwnTest(mimetype);
    }
    if mimetype in AllowedTypes {
      var i :| 0 <= i < |AllowedTypes| && AllowedTypes[i] == mimetype;
    }
  }

  // ---------------------------------------------------------------------------
  // The temporary audio file of a video

  /** `filePath.replace(path.extname(filePath), '.mp3')`: the first occurrence of the
      extension is replaced. */
  function AudioPath(filePath: string): string {
    ReplaceFirst(filePath, Extname(filePath), ".mp3")
  }

  /** When the extension is the only place its first character '.' occurs, it is replaced at
      the end of the path. */
  lemma {:induction false} ReplaceExtension(stem: string, ext: string)
    requires '.' !in stem && ext != [] && ext[0] == '.'
    ensures ReplaceFirst(stem + ext, ext, ".mp3") == stem + ".mp3"
  {
    var p := stem + ext;
    assert OccursAt(p, ext, |stem|) by {
      assert p[|stem|..|stem| + |ext|] == ext;
    }
    var r := IndexOf(p, ext);
    assert r.Some? && r.value <= |stem|;
    assert p[r.value] == '.' by {
      assert p[r.value..r.value + |ext|] == ext;
    }
    assert r.value == |stem|;
    assert p[..|stem|] == stem;
    assert p[|stem| + |ext|..] == [];
  }

  /** An empty pattern matches at index 0, so a path without an extension gets '.mp3'
      prepended. */
  lemma AudioPathWithoutExtension(filePath: string)
    requires Extname(filePath) == ""
    ensures AudioPath(filePath) == ".mp3" + filePath
  {
    ReplaceEmpty(filePath, ".mp3");
  }

  /** The path of a stored upload is a stem free of '.' followed by the client's extension. */
  lemma StoredPath(fieldname: string, timestamp: nat, random: nat, originalname: string)
    requires '.' !in fieldname
    ensures var stem := UploadsDir + fieldname + "-" + UniqueSuffix(timestamp, random);
      && UploadsDir + StoredFilename(fieldname, timestamp, random, originalname) == stem + Extname(originalname)
      && '.' !in stem && stem != [] && stem[|stem| - 1] != '/'
  {
    StemHasNoDot(UploadsDir + fieldname, timestamp, random);
  }

  /** For a stored upload with an extension, the audio file sits next to it with the extension
      changed to '.mp3'. */
  lemma AudioPathOfStoredFile(fieldname: string, timestamp: nat, random: nat, originalname: string)
    requires '.' !in fieldname
    requires Extname(originalname) != ""
    ensures AudioPath(UploadsDir + StoredFilename(fieldname, timestamp, random, originalname))
         == UploadsDir + fieldname + "-" + UniqueSuffix(timestamp, random) + ".mp3"
  {
    var stem := UploadsDir + fieldname + "-" + UniqueSuffix(timestamp, random);
    StoredPath(fieldname, timestamp, random, originalname);
    ExtnameOfStem(stem, Extname(originalname));
    ReplaceExtension(stem, Extname(originalname));
  }

  /** A stored upload whose client name has no extension gets an audio path outside the
      uploads directory: '.mp3' is prepended to the whole path. */
  lemma AudioPathOfStoredFileWithoutExtension(fieldname: string, timestamp: nat, random: nat, originalname: string)
    requires '.' !in fieldname
    requires Extname(originalname) == ""
    ensures var p := UploadsDir + StoredFilename(fieldname, timestamp, random, originalname);
      AudioPath(p) == ".mp3" + p && !StartsWith(AudioPath(p), UploadsDir)
  {
    var stem := UploadsDir + fieldname + "-" + UniqueSuffix(timestamp, random);
    var p := UploadsDir + StoredFilename(fieldname, timestamp, random, originalname);
    StoredPath(fieldname, timestamp, random, originalname);
    assert p == stem + "";
    ExtnameOfStem(stem, "");
    AudioPathWithoutExtension(p);
    assert AudioPath(p)[0] == '.';
  }

  /** What the corrected derivation puts in place of the extension. */
  const AudioTail: string := "-audio.mp3"

  /** A path with its extension, if any, swapped for "-audio.mp3". */
  function TempAudioPath(filePath: string): (a: string)
    ensures EndsWith(a, ".mp3")
  {
    var s := StripTrailingSlashes(filePath);
    ExtnameIsSuffix(filePath);
    s[..|s| - |Extname(filePath)|] + AudioTail
  }

  /** The corrected path never names the file it was derived from. Whatever extension the
      client sent, ffmpeg never writes over its input and the clean-up never deletes the
      upload. */
  lemma TempAudioPathIsNotTheUpload(filePath: string)
    ensures TempAudioPath(filePath) != filePath
  {
    var a := TempAudioPath(filePath);
    assert a[|a| - 1] == '3';
    if filePath != [] && filePath[|filePath| - 1] != '/' {
      var e := Extname(filePath);
      assert StripTrailingSlashes(filePath) == filePath;
      ExtnameIsSuffix(filePath);
    }
  }

  /** For a name made of a stem free of '.' and an extension, the corrected path swaps the
      extension (or its absence) for "-audio.mp3", and `path.extname` of the result is '.mp3'. */
  lemma TempAudioPathOfStem(stem: string, ext: string)
    requires '.' !in stem && stem != [] && stem[|stem| - 1] != '/'
    requires IsExtension(ext)
    ensures TempAudioPath(stem + ext) == stem + AudioTail
    ensures Extname(TempAudioPath(stem + ext)) == ".mp3"
  {
    var p := stem + ext;
    ExtnameOfStem(stem, ext);
    assert StripTrailingSlashes(p) == p by {
      if ext != [] {
        assert p[|p| - 1] == ext[|ext| - 1];
        assert ext[|ext| - 1] in ext;
      } else {
        assert p == stem;
      }
    }
    assert p[..|p| - |ext|] == stem;
    assert stem + AudioTail == (stem + "-audio") + ".mp3";
    ExtnameOfStem(stem + "-audio", ".mp3");
  }

  /** For every stored upload the corrected path is the stored path with its extension, if
      any, swapped for "-audio.mp3": it stays in the uploads directory, next to the upload and
      distinct from it. */
  lemma TempAudioPathOfStoredFile(fieldname: string, timestamp: nat, random: nat, originalname: string)
    requires '.' !in fieldname
    ensures var p := UploadsDir + StoredFilename(fieldname, timestamp, random, originalname);
      && TempAudioPath(p) == UploadsDir + fieldname + "-" + UniqueSuffix(timestamp, random) + AudioTail
      && Extname(TempAudioPath(p)) == ".mp3"
      && TempAudioPath(p) != p
  {
    TempAudioPathIsNotTheUpload(UploadsDir + StoredFilename(fieldname, timestamp, random, originalname));
    StoredPath(fieldname, timestamp, random, originalname);
    TempAudioPathOfStem(UploadsDir + fieldname + "-" + UniqueSuffix(timestamp, random), Extname(originalname));
  }

  /** For the route's own field, the stored name keeps the client's extension, and the corrected
      audio path of a video sits next to the upload in 'uploads/' without being the upload. */
  lemma UploadedFilePaths(timestamp: nat, random: nat, originalname: string)
    ensures Extname(StoredFilename(FieldName, timestamp, random, originalname)) == Extname(originalname)
    ensures var p := UploadsDir + StoredFilename(FieldName, timestamp, random, originalname);
      && TempAudioPath(p) == UploadsDir + FieldName + "-" + UniqueSuffix(timestamp, random) + AudioTail
      && TempAudioPath(p) != p
  {
    assert '.' !in FieldName;
    StoredFilenameExtension(FieldName, timestamp, random, originalname);
    TempAudioPathOfStoredFile(FieldName, timestamp, random, originalname);
  }

  // ---------------------------------------------------------------------------
  // POST /file

  /** The foreign calls the handler makes: the PDF parser (after reading the file), a UTF-8
      file read, the vision model (given the MIME type and the file), ffmpeg extracting the
      audio track, and the speech-to-text API. Each yields its result or the message of the
      error it throws. */
  datatype Services = Services(
    parsePdf: string -> Result<string>,
    readText: string -> Result<string>,
    describeImage: (string, string) -> Result<Value>,
    extractAudio: (string, string) -> Result<()>,
    transcribe: string -> Result<string>)

  /** What an extraction step produced, and the foreign calls it made. */
  datatype Extraction = Extraction(content: Result<Value>, trace: seq<Effect>)

  /** The video branch as written: extract the audio track, transcribe it, then delete the
      temporary audio file. */
  function VideoTranscript(filePath: string, s: Services): (r: Extraction)
    ensures var audio := AudioPath(filePath);
      && |r.trace| >= 1 && r.trace[0] == ExtractAudio(filePath, audio)
      && (r.content.Ok? <==> s.extractAudio(filePath, audio).Ok? && s.transcribe(audio).Ok?)
      && (r.content.Ok? ==> r.content.value == Str(s.transcribe(audio).value) && r.trace[|r.trace| - 1] == Unlink(audio))
      && (r.content.Err? ==> Unlink(audio) !in r.trace)
      && (s.extractAudio(filePath, audio).Ok? && s.transcribe(audio).Err? ==>
            r.content == Err("Failed to transcribe audio: " + s.transcribe(audio).message))
  {
    var audio := AudioPath(filePath);
    match s.extractAudio(filePath, audio)
    case Err(message) => Extraction(Err(message), [ExtractAudio(filePath, audio)])
    case Ok(_) =>
      match s.transcribe(audio)
      case Err(message) =>
        Extraction(Err("Failed to transcribe audio: " + message), [ExtractAudio(filePath, audio), Transcribe(audio)])
      case Ok(text) =>
        Extraction(Ok(Str(text)), [ExtractAudio(filePath, audio), Transcribe(audio), Unlink(audio)])
  }

  /** When ffmpeg succeeds but the transcription fails, the audio file written by ffmpeg is
      never deleted. */
  lemma AudioLeftBehind(filePath: string, s: Services)
    requires s.extractAudio(filePath, AudioPath(filePath)).Ok?
    requires s.transcribe(AudioPath(filePath)).Err?
    ensures ExtractAudio(filePath, AudioPath(filePath)) in VideoTranscript(filePath, s).trace
    ensures Unlink(AudioPath(filePath)) !in VideoTranscript(filePath, s).trace
  {
    assert VideoTranscript(filePath, s).trace == [ExtractAudio(filePath, AudioPath(filePath)), Transcribe(AudioPath(filePath))];
  }

  /** A stored upload whose client name ends in '.mp3' is its own audio path: ffmpeg is asked to
      write the audio track over its input, and a successful transcription deletes the upload. */
  lemma AudioPathOfMp3Upload(fieldname: string, timestamp: nat, random: nat, originalname: string, s: Services)
    requires '.' !in fieldname
    requires Extname(originalname) == ".mp3"
    ensures var p := UploadsDir + StoredFilename(fieldname, timestamp, random, originalname);
      && AudioPath(p) == p
      && VideoTranscript(p, s).trace[0] == ExtractAudio(p, p)
      && (VideoTranscript(p, s).content.Ok? ==> Unlink(p) in VideoTranscript(p, s).trace)
  {
    StoredPath(fieldname, timestamp, random, originalname);
    AudioPathOfStoredFile(fieldname, timestamp, random, originalname);
  }

  /** The video branch with the temporary file deleted whether or not the transcription
      succeeds. */
  function VideoTranscriptWithCleanup(filePath: string, s: Services): (r: Extraction)
    ensures var audio := TempAudioPath(filePath);
      && |r.trace| >= 1 && r.trace[0] == ExtractAudio(filePath, audio)
      && (r.content.Ok? <==> s.extractAudio(filePath, audio).Ok? && s.transcribe(audio).Ok?)
      && (s.extractAudio(filePath, audio).Ok? ==> r.trace[|r.trace| - 1] == Unlink(audio))
      && (s.extractAudio(filePath, audio).Err? ==> r.trace == [ExtractAudio(filePath, audio)])
    ensures Unlink(filePath) !in r.trace
  {
    TempAudioPathIsNotTheUpload(filePath);
    var audio := TempAudioPath(filePath);
    match s.extractAudio(filePath, audio)
    case Err(message) => Extraction(Err(message), [ExtractAudio(filePath, audio)])
    case Ok(_) =>
      var content := match s.transcribe(audio)
        case Err(message) => Err("Failed to transcribe audio: " + message)
        case Ok(text) => Ok(Str(text));
      Extraction(content, [ExtractAudio(filePath, audio), Transcribe(audio), Unlink(audio)])
  }

  /** When ffmpeg and the transcription behave alike whichever temporary name they are given,
      the corrected branch yields the same content as the original one; only the clean-up
      differs. */
  lemma CleanupKeepsContent(filePath: string, s: Services)
    requires s.extractAudio(filePath, TempAudioPath(filePath)) == s.extractAudio(filePath, AudioPath(filePath))
    requires s.transcribe(TempAudioPath(filePath)) == s.transcribe(AudioPath(filePath))
    ensures VideoTranscriptWithCleanup(filePath, s).content == VideoTranscript(filePath, s).content
  {
  }

  /** A thrown error's message, prefixed the way the extraction helpers rethrow it. */
  function Wrapped(prefix: string, r: Result<string>): Result<Value> {
    match r
    case Ok(text) => Ok(Str(text))
    case Err(message) => Err(prefix + message)
  }

  /** The reply for an extraction: the file's description with its content, or a 500 carrying
      the error's message. */
  function Processed(f: StoredFile, contentType: string, content: Result<Value>): Reply {
    match content
    case Ok(extractedContent) =>
      Reply(200, Obj([("filename", Str(f.originalname)), ("contentType", Str(contentType)),
                      ("extractedContent", extractedContent), ("fileId", Str(f.filename)), ("size", Num(f.size))]))
    case Err(message) => FailureWithDetails(500, "Failed to process file", message)
  }

  /** POST /file: without a file, 400; otherwise the first matching case extracts the content
      and sets its label; a type no case matches fails before any foreign call. */
  method HandleFile(file: Option<StoredFile>, s: Services) returns (h: Handled)
    ensures file.None? ==> h == Handled(Failure(400, "No file uploaded"), [])
    ensures file.Some? ==>
      var f := file.value;
      match Classify(f.mimetype)
      case Pdf =>
        h == Handled(Processed(f, "PDF document", Wrapped("Failed to extract PDF text: ", s.parsePdf(f.path))),
                     [ParsePdf(f.path)])
      case PlainText => h == Handled(Processed(f, "text file", Wrapped("", s.readText(f.path))), [ReadText(f.path)])
      case Image =>
        h == Handled(Processed(f, "image analysis", s.describeImage(f.mimetype, f.path)),
                     [DescribeImage(f.mimetype, f.path)])
      case Video =>
        h == Handled(Processed(f, "video transcript", VideoTranscript(f.path, s).content), VideoTranscript(f.path, s).trace)
      case Audio =>
        h == Handled(Processed(f, "audio transcript", Wrapped("Failed to transcribe audio: ", s.transcribe(f.path))),
                     [Transcribe(f.path)])
      case Unextractable =>
        h == Handled(FailureWithDetails(500, "Failed to process file", "Unsupported file type for content extraction"), [])
  {
    if file.None? {
      return Handled(Failure(400, "No file uploaded"), []);
    }
    var f := file.value;
    var filePath, fileType := f.path, f.mimetype;
    var extractedContent: Result<Value> := Ok(Str(""));
    var contentType := "text";
    var trace: seq<Effect> := [];
    if fileType == "application/pdf" {
      assert Classify(fileType) == Pdf;
      trace := [ParsePdf(filePath)];
      extractedContent := Wrapped("Failed to extract PDF text: ", s.parsePdf(filePath));
      contentType := "PDF document";
    } else if fileType == "text/plain" {
      assert Classify(fileType) == PlainText;
      trace := [ReadText(filePath)];
      extractedContent := Wrapped("", s.readText(filePath));
      contentType := "text file";
    } else if StartsWith(fileType, "image/") {
      assert Classify(fileType) == Image;
      trace := [DescribeImage(fileType, filePath)];
      extractedContent := s.describeImage(fileType, filePath);
      contentType := "image analysis";
    } else if StartsWith(fileType, "video/") {
      assert Classify(fileType) == Video;
      var video := VideoTranscript(filePath, s);
      trace := video.trace;
      extractedContent := video.content;
      contentType := "video transcript";
    } else if StartsWith(fileType, "audio/") {
      assert Classify(fileType) == Audio;
      trace := [Transcribe(filePath)];
      extractedContent := Wrapped("Failed to transcribe audio: ", s.transcribe(filePath));
      contentType := "audio transcript";
    } else {
      assert Classify(fileType) == Unextractable;
      extractedContent := Err("Unsupported file type for content extraction");
    }
    h := Handled(Processed(f, contentType, extractedContent), trace);
  }

  // ---------------------------------------------------------------------------
  // POST /explain

  const ExplainOpening: string := "You are an expert mechanical engineering tutor. A student has uploaded "
  const ExplainNeeds: string := " content and needs it explained in beginner-friendly terms.\n\n"
  const SubjectContextHeading: string := "SUBJECT CONTEXT: "
  const AdditionalContextHeading: string := "ADDITIONAL CONTEXT: "
  const ContentHeading: string := "\n\nCONTENT TO EXPLAIN:\n"
  const ExplainInstructions: string := Join([
      "",
      "",
      "Please provide:",
      "1. Overview of the content and its purpose",
      "2. Key concepts and principles covered",
      "3. Step-by-step breakdown of complex parts",
      "4. Important equations or formulas (if any)",
      "5. How this relates to mechanical engineering curriculum",
      "6. Study tips and what to focus on",
      "7. Suggest related topics to explore",
      "",
      "Remember to explain everything clearly as if teaching a beginner mechanical engineering student."
    ], "\n")

  /** The prompt of `/explain`: the content type, a subject line and a context line each only
      when its value is truthy (the line break between them stays), then the content. */
  function ExplainPrompt(content: Value, contentType: Value, context: Value, subject: Value): string {
    Render([Text(ExplainOpening), Slot(contentType), Text(ExplainNeeds)]
           + ([Optional(SubjectContextHeading, subject)]
           + ([Text("\n")]
           + ([Optional(AdditionalContextHeading, context)]
           + [Text(ContentHeading), Slot(content), Text(ExplainInstructions)]))))
  }

  /** The prompt opens with the sentence naming the content type and closes with the content
      and the instructions. */
  lemma ExplainPromptFrame(content: Value, contentType: Value, context: Value, subject: Value)
    ensures StartsWith(ExplainPrompt(content, contentType, context, subject),
                       ExplainOpening + Interpolate(contentType) + ExplainNeeds)
    ensures EndsWith(ExplainPrompt(content, contentType, context, subject),
                     ContentHeading + Interpolate(content) + ExplainInstructions)
  {
    OpeningSlot(ExplainOpening, contentType, ExplainNeeds,
                [Optional(SubjectContextHeading, subject)]
                + ([Text("\n")]
                + ([Optional(AdditionalContextHeading, context)]
                + [Text(ContentHeading), Slot(content), Text(ExplainInstructions)])));
    ClosingParts([Text(ExplainOpening), Slot(contentType), Text(ExplainNeeds)], Optional(SubjectContextHeading, subject),
                 [Text("\n")], Optional(AdditionalContextHeading, context),
                 [Text(ContentHeading), Slot(content), Text(ExplainInstructions)]);
    RenderTriple(Text(ContentHeading), Slot(content), Text(ExplainInstructions));
  }

  /** The subject line is present exactly when `subject` is truthy, right after the opening
      sentence. */
  lemma ExplainSubjectLine(content: Value, contentType: Value, context: Value, subject: Value)
    ensures var at := |ExplainOpening| + |Interpolate(contentType)| + |ExplainNeeds|;
      && at <= |ExplainPrompt(content, contentType, context, Undefined)|
      && ExplainPrompt(content, contentType, context, subject)
         == if Truthy(subject)
            then Insert(ExplainPrompt(content, contentType, context, Undefined), at,
                        SubjectContextHeading + Interpolate(subject))
            else ExplainPrompt(content, contentType, context, Undefined)
  {
    LineAfterOpening(ExplainOpening, contentType, ExplainNeeds, SubjectContextHeading, subject,
                     [Text("\n")] + ([Optional(AdditionalContextHeading, context)]
                     + [Text(ContentHeading), Slot(content), Text(ExplainInstructions)]));
  }

  /** The context line is present exactly when `context` is truthy, on the line after the
      subject line (an empty line when there is no subject). */
  lemma ExplainContextLine(content: Value, contentType: Value, context: Value, subject: Value)
    ensures var at := |ExplainOpening| + |Interpolate(contentType)| + |ExplainNeeds|
                      + (if Truthy(subject) then |SubjectContextHeading + Interpolate(subject)| else 0) + |"\n"|;
      && at <= |ExplainPrompt(content, contentType, Undefined, subject)|
      && ExplainPrompt(content, contentType, context, subject)
         == if Truthy(context)
            then Insert(ExplainPrompt(content, contentType, Undefined, subject), at,
                        AdditionalContextHeading + Interpolate(context))
            else ExplainPrompt(content, contentType, Undefined, subject)
  {
    LineAfterLineAndText(ExplainOpening, contentType, ExplainNeeds, SubjectContextHeading, subject, "\n",
                         AdditionalContextHeading, context, [Text(ContentHeading), Slot(content), Text(ExplainInstructions)]);
  }

  /** POST /explain: the prompt is the only message, sent as the user's. */
  function Explain(content: Value, contentType: Value, context: Value, subject: Value, complete: Gateway): (h: Handled)
    ensures ToStringThrows(contentType) || ToStringThrows(subject) || ToStringThrows(context) || ToStringThrows(content) ==>
      h == Handled(Failure(500, "Failed to explain content"), [])
    ensures !ToStringThrows(contentType) && !ToStringThrows(subject) && !ToStringThrows(context) && !ToStringThrows(content) ==>
      var messages := [Message(User, Str(ExplainPrompt(content, contentType, context, subject)))];
      && h.trace == [Complete(messages)]
      && (complete(messages).Ok? ==>
            h.reply == Reply(200, Obj([("explanation", complete(messages).value.content), ("contentType", contentType),
                                       ("processed", Bool(true))])))
      && (complete(messages).Err? ==> h.reply == Failure(500, "Failed to explain content"))
  {
    if ToStringThrows(contentType) || ToStringThrows(subject) || ToStringThrows(context) || ToStringThrows(content) then
      Handled(Failure(500, "Failed to explain content"), [])
    else
      var messages := [Message(User, Str(ExplainPrompt(content, contentType, context, subject)))];
      match complete(messages)
      case Err(_) => Handled(Failure(500, "Failed to explain content"), [Complete(messages)])
      case Ok(completion) =>
        var body := Obj([("explanation", completion.content), ("contentType", contentType), ("processed", Bool(true))]);
        Handled(Reply(200, body), [Complete(messages)])
  }

  // ---------------------------------------------------------------------------
  // POST /analyze-lecture

  const AnalyzeOpening: string := Join([
      "You are analyzing a lecture transcript for a mechanical engineering student. Please provide a comprehensive analysis that will help a beginner understand and study from this lecture.",
      "",
      "SUBJECT: "
    ], "\n")
  const LectureTitleHeading: string := "\nLECTURE TITLE: "
  const TranscriptHeading: string := "\n\nTRANSCRIPT:\n"
  const AnalyzeInstructions: string := Join([
      "",
      "",
      "Please provide:",
      "1. LECTURE SUMMARY: Key points and main topics covered",
      "2. IMPORTANT CONCEPTS: List and explain key engineering concepts discussed",
      "3. EQUATIONS & FORMULAS: Extract and explain any mathematical content",
      "4. STUDY GUIDE: Create a structured study guide from this lecture",
      "5. KEY TAKEAWAYS: Most important points for exam preparation",
      "6. FOLLOW-UP TOPICS: Related topics students should explore",
      "7. PRACTICE SUGGESTIONS: What types of problems to practice based on this lecture",
      "",
      "Format your response in clear sections that are easy to study from."
    ], "\n")

  /** The template of `/analyze-lecture`, filled with the texts it names. */
  function AnalyzeTemplate(subjectText: Value, titleText: Value, transcript: Value): string {
    Render([Text(AnalyzeOpening), Slot(subjectText), Text(LectureTitleHeading), Slot(titleText), Text(TranscriptHeading),
            Slot(transcript), Text(AnalyzeInstructions)])
  }

  /** The prompt of `/analyze-lecture`: the template filled with the subject and the title, each
      replaced by its default when falsy, and the transcript. */
  function AnalyzePrompt(transcript: Value, subject: Value, lectureTitle: Value): string {
    AnalyzeTemplate(Or(subject, Str("Mechanical Engineering")), Or(lectureTitle, Str("Engineering Lecture")), transcript)
  }

  /** The template opens with its instructions and names the subject, then the title, each
      right after its heading. */
  lemma AnalyzeTemplateQuotes(subjectText: Value, titleText: Value, transcript: Value)
    ensures StartsWith(AnalyzeTemplate(subjectText, titleText, transcript), AnalyzeOpening)
    ensures var s, t := Interpolate(subjectText), Interpolate(titleText);
      && OccursAt(AnalyzeTemplate(subjectText, titleText, transcript), s, |AnalyzeOpening|)
      && OccursAt(AnalyzeTemplate(subjectText, titleText, transcript), t, |AnalyzeOpening| + |s| + |LectureTitleHeading|)
  {
    TwoQuotes(AnalyzeOpening, subjectText, LectureTitleHeading, titleText, TranscriptHeading, Slot(transcript),
              AnalyzeInstructions);
  }

  /** The transcript comes right after its heading, after the subject and title lines. */
  lemma AnalyzeTemplateTranscript(subjectText: Value, titleText: Value, transcript: Value)
    ensures var s, t := Interpolate(subjectText), Interpolate(titleText);
      OccursAt(AnalyzeTemplate(subjectText, titleText, transcript), Interpolate(transcript),
               |AnalyzeOpening| + |s| + |LectureTitleHeading| + |t| + |TranscriptHeading|)
  {
    ThirdQuote(AnalyzeOpening, subjectText, LectureTitleHeading, titleText, TranscriptHeading, transcript,
               AnalyzeInstructions);
  }

  /** The subject reads 'Mechanical Engineering' and the title 'Engineering Lecture' exactly
      when they are falsy, and a falsy one gives the same prompt as sending the default. */
  lemma AnalyzePromptDefaults(transcript: Value, subject: Value, lectureTitle: Value)
    ensures Interpolate(Or(subject, Str("Mechanical Engineering")))
         == if Truthy(subject) then Interpolate(subject) else "Mechanical Engineering"
    ensures Interpolate(Or(lectureTitle, Str("Engineering Lecture")))
         == if Truthy(lectureTitle) then Interpolate(lectureTitle) else "Engineering Lecture"
    ensures !Truthy(subject) ==>
      AnalyzePrompt(transcript, subject, lectureTitle) == AnalyzePrompt(transcript, Str("Mechanical Engineering"), lectureTitle)
    ensures !Truthy(lectureTitle) ==>
      AnalyzePrompt(transcript, subject, lectureTitle) == AnalyzePrompt(transcript, subject, Str("Engineering Lecture"))
  {
  }

  /** POST /analyze-lecture: the reply echoes the defaulted title but the raw subject. */
  function AnalyzeLecture(transcript: Value, subject: Value, lectureTitle: Value, complete: Gateway): (h: Handled)
    ensures ToStringThrows(subject) || ToStringThrows(lectureTitle) || ToStringThrows(transcript) ==>
      h == Handled(Failure(500, "Failed to analyze lecture content"), [])
    ensures !ToStringThrows(subject) && !ToStringThrows(lectureTitle) && !ToStringThrows(transcript) ==>
      var messages := [Message(User, Str(AnalyzePrompt(transcript, subject, lectureTitle)))];
      && h.trace == [Complete(messages)]
      && (complete(messages).Ok? ==>
            h.reply == Reply(200, Obj([("analysis", complete(messages).value.content), ("subject", subject),
                                       ("lectureTitle", Or(lectureTitle, Str("Engineering Lecture")))])))
      && (complete(messages).Err? ==> h.reply == Failure(500, "Failed to analyze lecture content"))
  {
    if ToStringThrows(Or(subject, Str("Mechanical Engineering"))) || ToStringThrows(Or(lectureTitle, Str("Engineering Lecture")))
       || ToStringThrows(transcript) then
      Handled(Failure(500, "Failed to analyze lecture content"), [])
    else
      var messages := [Message(User, Str(AnalyzePrompt(transcript, subject, lectureTitle)))];
      match complete(messages)
      case Err(_) => Handled(Failure(500, "Failed to analyze lecture content"), [Complete(messages)])
      case Ok(completion) =>
        var body := Obj([("analysis", completion.content), ("subject", subject),
                       ("lectureTitle", Or(lectureTitle, Str("Engineering Lecture")))]);
        Handled(Reply(200, body), [Complete(messages)])
  }
}
