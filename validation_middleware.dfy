/** `validateData(schema)`: parse the body with a Zod schema, store the
    parsed value as `req.cleanBody` and call `next`, or answer 400 with one
    `{ field, message }` per Zod issue, or 500 for any other error.  The
    schema itself is the `parse` parameter. */
module ValidationMiddleware {
  import opened Common
  import opened Http

  /** `String(n)` for a non-negative integer. */
  function NatToDecimal(n: nat): (s: string)
    ensures |s| > 0
    ensures forall i :: 0 <= i < |s| ==> '0' <= s[i] <= '9'
    decreases n
  {
    var digit := ('0' as int + n % 10) as char;
    if n < 10 then [digit] else NatToDecimal(n / 10) + [digit]
  }

  /** How one path segment prints inside `join`. */
  function SegmentText(segment: PathSegment): string {
    match segment
    case Key(k) => k
    case Index(i) => NatToDecimal(i)
  }

  function SegmentTexts(path: seq<PathSegment>): seq<string> {
    seq(|path|, i requires 0 <= i < |path| => SegmentText(path[i]))
  }

  /** `parts.join(sep)`. */
  function Join(parts: seq<string>, sep: char): (s: string)
    ensures |parts| > 0 ==> parts[0] <= s
    ensures (forall i :: 0 <= i < |parts| ==> sep !in parts[i]) ==> (sep in s <==> |parts| > 1)
  {
    if |parts| == 0 then ""
    else if |parts| == 1 then parts[0]
    else
      var s := parts[0] + [sep] + Join(parts[1..], sep);
      assert s[|parts[0]|] == sep;
      s
  }

  /** `s.split(sep)`: the pieces between separators, never empty. */
  function Split(s: string, sep: char): (parts: seq<string>)
    ensures |parts| > 0
    decreases |s|
  {
    if s == [] then [""]
    else
      var rest := Split(s[1..], sep);
      if s[0] == sep then [""] + rest
      else [[s[0]] + rest[0]] + rest[1..]
  }

  /** `issue.path.join('.')`. */
  function JoinPath(path: seq<PathSegment>): (field: string)
    ensures |path| == 1 ==> field == SegmentText(path[0])
    ensures |path| > 0 ==> SegmentText(path[0]) <= field
  {
    Join(SegmentTexts(path), '.')
  }

  /** Keys free of dots, so that the joined field name can be read back. */
  predicate DotFreeKeys(path: seq<PathSegment>) {
    forall i :: 0 <= i < |path| && path[i].Key? ==> '.' !in path[i].key
  }

  lemma {:induction false} SplitWithoutSeparator(s: string, sep: char)
    requires sep !in s
    ensures Split(s, sep) == [s]
    decreases |s|
  {
    if s != [] {
      assert s[0] in s;
      assert forall c :: c in s[1..] ==> c in s;
      SplitWithoutSeparator(s[1..], sep);
      assert [s[0]] + s[1..] == s;
    }
  }

  lemma {:induction false} SplitAfterPiece(piece: string, sep: char, tail: string)
    requires sep !in piece
    ensures Split(piece + [sep] + tail, sep) == [piece] + Split(tail, sep)
    decreases |piece|
  {
    if piece == [] {
      assert piece + [sep] + tail == [sep] + tail;
      assert ([sep] + tail)[1..] == tail;
    } else {
      assert (piece + [sep] + tail)[1..] == piece[1..] + [sep] + tail;
      SplitAfterPiece(piece[1..], sep, tail);
      assert [piece[0]] + piece[1..] == piece;
    }
  }

  /** Splitting a join on its separator gives the pieces back, when none
      of them contains the separator. */
  lemma {:induction false} SplitJoin(parts: seq<string>, sep: char)
    requires |parts| > 0
    requires forall i :: 0 <= i < |parts| ==> sep !in parts[i]
    ensures Split(Join(parts, sep), sep) == parts
    decreases |parts|
  {
    if |parts| == 1 {
      SplitWithoutSeparator(parts[0], sep);
    } else {
      SplitAfterPiece(parts[0], sep, Join(parts[1..], sep));
      SplitJoin(parts[1..], sep);
    }
  }

  /** The field name of a non-empty path with dot-free keys splits back on
      `"."` into the path's segments (an index prints as its digits). */
  lemma JoinPathReadsBack(path: seq<PathSegment>)
    requires |path| > 0
    requires DotFreeKeys(path)
    ensures Split(JoinPath(path), '.') == SegmentTexts(path)
  {
    var texts := SegmentTexts(path);
    forall i | 0 <= i < |texts|
      ensures '.' !in texts[i]
    {
      if path[i].Index? {
        var digits := NatToDecimal(path[i].index);
        assert forall j :: 0 <= j < |digits| ==> digits[j] != '.';
      }
    }
    SplitJoin(texts, '.');
  }

  /** The 400 body: one record per issue, in issue order, each carrying the
      issue's message and its path joined with `"."`. */
  function FieldErrors(issues: seq<Issue>): (errors: seq<FieldError>)
    ensures |errors| == |issues|
    ensures forall i :: 0 <= i < |issues| ==>
      errors[i].message == issues[i].message && errors[i].field == JoinPath(issues[i].path)
    ensures forall i :: 0 <= i < |issues| && |issues[i].path| > 0 && DotFreeKeys(issues[i].path) ==>
      Split(errors[i].field, '.') == SegmentTexts(issues[i].path)
  {
    var errors := seq(|issues|, i requires 0 <= i < |issues| => FieldError(JoinPath(issues[i].path), issues[i].message));
    forall i | 0 <= i < |issues| && |issues[i].path| > 0 && DotFreeKeys(issues[i].path)
      ensures Split(errors[i].field, '.') == SegmentTexts(issues[i].path)
    {
      JoinPathReadsBack(issues[i].path);
    }
    errors
  }

  /** What `schema.parse(req.body)` does: return the parsed value, throw a
      ZodError with its issues, or throw something else. */
  datatype ParseOutcome = Parsed(value: Json) | ZodFailure(issues: seq<Issue>) | OtherFailure

  /** The middleware returned by `validateData(schema)`. */
  method ValidateData(ex: Exchange, body: Json, parse: Json -> ParseOutcome)
    modifies ex`cleanBody, ex`response, ex`nextCalls
    ensures parse(body).Parsed? ==>
      && ex.cleanBody == Some(parse(body).value)
      && ex.nextCalls == old(ex.nextCalls) + 1
      && ex.response == old(ex.response)
    ensures parse(body).ZodFailure? ==>
      && ex.response == Some(HttpResponse(400, ValidationErrors("Validation error", FieldErrors(parse(body).issues))))
      && ex.nextCalls == old(ex.nextCalls)
      && ex.cleanBody == old(ex.cleanBody)
    ensures parse(body).OtherFailure? ==>
      && ex.response == Some(HttpResponse(500, MessageOnly("Internal Server Error")))
      && ex.nextCalls == old(ex.nextCalls)
      && ex.cleanBody == old(ex.cleanBody)
  {
    var outcome := parse(body);
    match outcome
    case Parsed(value) =>
      ex.cleanBody := Some(value);
      ex.nextCalls := ex.nextCalls + 1;
    case ZodFailure(issues) =>
      ex.response := Some(HttpResponse(400, ValidationErrors("Validation error", FieldErrors(issues))));
    case OtherFailure =>
      ex.response := Some(HttpResponse(500, MessageOnly("Internal Server Error")));
  }
}
