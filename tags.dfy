/** The `tags` field of a create or edit request (backend/server.js): a
    comma-separated string that the handler splits and trims, then checks
    piece by piece. */
module Tags {
  import opened Outcomes
  import opened Strings

  /** What the request body can carry under `tags`: nothing (or another falsy
      value), a string, or a JSON array such as the one BlogForm sends. */
  datatype TagsField = Missing | Text(csv: string) | List(items: seq<string>)

  const MAX_TAG_LENGTH: nat := 50

  /** `csv.split(',').map(tag => tag.trim())` */
  function SplitTrim(csv: string): (r: seq<string>)
    ensures |r| == |Split(csv, ',')|
    ensures forall k :: 0 <= k < |r| ==> IsTrimmed(r[k]) && ',' !in r[k]
  {
    var pieces := Split(csv, ',');
    seq(|pieces|, k requires 0 <= k < |pieces| => Trim(pieces[k]))
  }

  /** `tagsCsv ? tagsCsv.split(',').map(tag => tag.trim()) : []`. An array is
      truthy and has no `split`, so the call throws and the handler's catch
      answers 500. */
  function ParseTags(f: TagsField): Result<seq<string>> {
    match f
    case Missing => Ok([])
    case Text(csv) => if csv == "" then Ok([]) else Ok(SplitTrim(csv))
    case List(_) => Fail(INTERNAL_ERROR)
  }

  /** Non-empty and at most 50 characters, as JavaScript counts them. */
  predicate ValidTag(t: string) {
    0 < JsLength(t) <= MAX_TAG_LENGTH
  }

  predicate AllValid(tags: seq<string>) {
    forall k :: 0 <= k < |tags| ==> ValidTag(tags[k])
  }

  /** Parsing, then the length check (create: some piece empty or longer than
      50; edit: not every piece within 1..50; the two tests agree). */
  function CheckTags(f: TagsField): (r: Result<seq<string>>)
    ensures r.Ok? ==> AllValid(r.value)
    ensures r.Ok? ==> forall k :: 0 <= k < |r.value| ==> IsTrimmed(r.value[k]) && ',' !in r.value[k]
    ensures r.Fail? ==> r.status == BAD_REQUEST || r.status == INTERNAL_ERROR
    ensures r.Fail? && r.status == INTERNAL_ERROR <==> f.List?
    ensures r == Ok([]) <==> f.Missing? || f == Text("")
  {
    var parsed := ParseTags(f);
    if parsed.Fail? then parsed
    else if !AllValid(parsed.value) then Fail(BAD_REQUEST)
    else parsed
  }

  /** Some piece is empty or too long once trimmed. */
  predicate SomePieceInvalid(pieces: seq<string>) {
    exists k :: 0 <= k < |pieces| && !ValidTag(Trim(pieces[k]))
  }

  /** A string field is rejected with 400 exactly when one of its trimmed
      pieces is empty or longer than 50. */
  lemma TextRejectedIffBadPiece(csv: string)
    requires csv != ""
    ensures CheckTags(Text(csv)) == Fail(BAD_REQUEST) <==> SomePieceInvalid(Split(csv, ','))
    ensures CheckTags(Text(csv)).Ok? ==> CheckTags(Text(csv)).value == SplitTrim(csv)
  {
    var pieces := Split(csv, ',');
    var tags := SplitTrim(csv);
    assert CheckTags(Text(csv)) == if AllValid(tags) then Ok(tags) else Fail(BAD_REQUEST);
    if AllValid(tags) {
      forall k | 0 <= k < |pieces| ensures ValidTag(Trim(pieces[k])) {
        assert tags[k] == Trim(pieces[k]);
      }
    } else {
      var k :| 0 <= k < |tags| && !ValidTag(tags[k]);
      assert tags[k] == Trim(pieces[k]);
    }
  }

  /** Every piece but the first, with one space in front. */
  function Padded(xs: seq<string>): (r: seq<string>)
    requires |xs| >= 1
    ensures |r| == |xs|
  {
    [xs[0]] + seq(|xs| - 1, k requires 0 <= k < |xs| - 1 => " " + xs[k + 1])
  }

  lemma {:induction false} JoinCommaSpace(xs: seq<string>)
    requires |xs| >= 1
    ensures Join(xs, ", ") == Join(Padded(xs), ",")
  {
    if |xs| > 1 {
      var tail := xs[1..];
      JoinCommaSpace(tail);
      var p := Padded(xs);
      var q := Padded(tail);
      assert p[1..][0] == " " + q[0];
      assert p[1..][1..] == q[1..];
      if |tail| == 1 {
        assert Join(p, ",") == xs[0] + "," + (" " + xs[1]);
      } else {
        assert Join(q, ",") == q[0] + "," + Join(q[1..], ",");
        assert Join(p[1..], ",") == p[1..][0] + "," + Join(p[1..][1..], ",");
      }
    }
  }

  lemma TrimSpaced(x: string)
    requires IsTrimmed(x)
    ensures Trim(" " + x) == x
  {
    assert (" " + x)[1..] == x;
  }

  /** Joining a tag list with `", "` and parsing the string back gives the
      list again when its tags are trimmed and hold no comma (the edit form
      shows `tags.join(', ')` and submits the text). */
  lemma {:induction false} SplitTrimJoin(xs: seq<string>)
    requires |xs| >= 1
    requires forall k :: 0 <= k < |xs| ==> IsTrimmed(xs[k]) && ',' !in xs[k]
    ensures SplitTrim(Join(xs, ", ")) == xs
  {
    var p := Padded(xs);
    JoinCommaSpace(xs);
    PaddedNoComma(xs);
    SplitJoin(p, ',');
    PaddedTrims(xs);
  }

  lemma PaddedNoComma(xs: seq<string>)
    requires |xs| >= 1
    requires forall k :: 0 <= k < |xs| ==> ',' !in xs[k]
    ensures forall k :: 0 <= k < |xs| ==> ',' !in Padded(xs)[k]
  {
    forall k | 0 < k < |xs| ensures ',' !in Padded(xs)[k] {
      assert Padded(xs)[k] == " " + xs[k];
    }
  }

  lemma PaddedTrims(xs: seq<string>)
    requires |xs| >= 1
    requires forall k :: 0 <= k < |xs| ==> IsTrimmed(xs[k])
    ensures forall k :: 0 <= k < |xs| ==> Trim(Padded(xs)[k]) == xs[k]
  {
    forall k | 0 < k < |xs| ensures Trim(Padded(xs)[k]) == xs[k] {
      assert Padded(xs)[k] == " " + xs[k];
      TrimSpaced(xs[k]);
    }
  }

  /** A stored tag list survives the edit round trip: shown as
      `tags.join(', ')`, submitted as text, accepted and parsed to itself. */
  lemma {:induction false} CheckTagsOfJoined(xs: seq<string>)
    requires |xs| >= 1 && AllValid(xs)
    requires forall k :: 0 <= k < |xs| ==> IsTrimmed(xs[k]) && ',' !in xs[k]
    ensures CheckTags(Text(Join(xs, ", "))) == Ok(xs)
  {
    SplitTrimJoin(xs);
    assert JsLength(xs[0]) > 0;
    assert Join(xs, ", ") != "" by {
      if |xs| > 1 {
        assert Join(xs, ", ") == xs[0] + ", " + Join(xs[1..], ", ");
      }
    }
  }
}
