/**
 * Format selection in the `download` route (app.py:107-123): a linear scan over
 * the format records returned by extraction that picks a format code for the
 * requested quality, with the literal "best" as fallback.
 */
module Selection {
  import opened Wrappers

  /** The value of one key of a format record: missing, present but `None`, or a string. */
  datatype Field = Absent | Null | Str(s: string)

  /** A format record, reduced to the two keys the selection reads. */
  datatype Format = Format(formatId: Field, formatNote: Field)

  /** The exceptions the scan itself can raise. */
  datatype SelectError =
    | NoteNotIterable   // `quality in None`: a `format_note` that is present but `None`
    | MissingFormatId   // `fmt['format_id']` on a record without that key

  /** Python's `str(e)` for each of those exceptions. */
  function Detail(e: SelectError): string {
    match e
    case NoteNotIterable => "argument of type 'NoneType' is not iterable"
    case MissingFormatId => "'format_id'"
  }

  /** `dict.get(key, default)`: `None` stands for a value that is Python's `None`. */
  function Get(f: Field, default: string): Option<string> {
    match f
    case Absent => Some(default)
    case Null => None
    case Str(s) => Some(s)
  }

  /** Python truthiness of a selected format code: `None` and "" are false. */
  predicate Truthy(f: Field) {
    f.Str? && f.s != ""
  }

  /** `needle` occurs in `hay` starting at index `i`. */
  predicate OccursAt(hay: string, needle: string, i: nat) {
    i + |needle| <= |hay| && hay[i..i + |needle|] == needle
  }

  /** Python's substring test `needle in hay`. */
  function Contains(hay: string, needle: string): (r: bool)
    ensures r <==> exists i: nat :: OccursAt(hay, needle, i)
    decreases |hay|
  {
    if |needle| <= |hay| && hay[..|needle|] == needle then
      assert OccursAt(hay, needle, 0);
      true
    else if hay == [] then
      assert forall i: nat :: !OccursAt(hay, needle, i);
      false
    else
      var r := Contains(hay[1..], needle);
      if r then
        var i: nat :| OccursAt(hay[1..], needle, i);
        assert hay[1..][i..i + |needle|] == hay[i + 1..i + 1 + |needle|];
        assert OccursAt(hay, needle, i + 1);
        r
      else
        assert forall i: nat | OccursAt(hay, needle, i) :: i > 0 && OccursAt(hay[1..], needle, i - 1) by {
          forall i: nat | OccursAt(hay, needle, i) ensures i > 0 && OccursAt(hay[1..], needle, i - 1) {
            assert hay[1..][i - 1..i - 1 + |needle|] == hay[i..i + |needle|];
          }
        }
        r
  }

  /** The branch test of app.py:110: the character 'p' anywhere in the quality string. */
  predicate MentionsP(quality: string) {
    'p' in quality
  }

  /** What one iteration of the scan does with one record. */
  datatype Step = Continue | Break(selected: Field) | Raise(error: SelectError)

  /**
   * One iteration of the loop at app.py:109-119. Only the `p` branch can raise;
   * a break keeps the record's own `format_id`, which is then present; outside
   * the `p` branch the loop breaks exactly on a record whose id is the quality
   * "best" or "worst".
   */
  function Examine(fmt: Format, quality: string): (r: Step)
    ensures r.Raise? ==> MentionsP(quality)
    ensures MentionsP(quality) && fmt.formatNote.Null? ==> r == Raise(NoteNotIterable)
    ensures r.Break? ==> r.selected == fmt.formatId && !fmt.formatId.Absent?
    ensures !MentionsP(quality) ==>
              (r.Break? <==> (quality == "best" || quality == "worst") && fmt.formatId == Str(quality))
  {
    if MentionsP(quality) then
      match Get(fmt.formatNote, "")
      case None => Raise(NoteNotIterable)
      case Some(note) =>
        if !Contains(note, quality) then Continue
        else if fmt.formatId.Absent? then Raise(MissingFormatId)
        else Break(fmt.formatId)
    else if quality == "best" && fmt.formatId == Str("best") then Break(fmt.formatId)
    else if quality == "worst" && fmt.formatId == Str("worst") then Break(fmt.formatId)
    else Continue
  }

  /**
   * The value `selected_format` holds when the loop ends (`Null` when no record
   * broke out of it), or the exception it raised.
   */
  function Scan(formats: seq<Format>, quality: string): (r: Result<Field, SelectError>)
    ensures r.Err? ==> MentionsP(quality)
    ensures r.Ok? ==> !r.value.Absent?
    ensures r.Ok? && r.value.Str? ==> exists j :: 0 <= j < |formats| && formats[j].formatId == r.value
  {
    if formats == [] then Ok(Null)
    else
      match Examine(formats[0], quality)
      case Continue =>
        var r := Scan(formats[1..], quality);
        assert r.Ok? && r.value.Str? ==> exists j :: 0 <= j < |formats| && formats[j].formatId == r.value by {
          if r.Ok? && r.value.Str? {
            var j :| 0 <= j < |formats[1..]| && formats[1..][j].formatId == r.value;
            assert formats[j + 1].formatId == r.value;
          }
        }
        r
      case Break(selected) => Ok(selected)
      case Raise(e) => Err(e)
  }

  /**
   * The format code the `download` route passes on (app.py:107-123): the scan's
   * selection, or "best" when that is not a non-empty string.
   */
  function SelectFormat(formats: seq<Format>, quality: string): (r: Result<string, SelectError>)
    ensures r.Err? ==> MentionsP(quality)
    ensures r.Ok? ==> r.value != ""
    ensures r.Ok? ==> r.value == "best" || exists j :: 0 <= j < |formats| && formats[j].formatId == Str(r.value)
  {
    match Scan(formats, quality)
    case Ok(selected) => Ok(if Truthy(selected) then selected.s else "best")
    case Err(e) => Err(e)
  }

  /** The loop of app.py:108-123 as written: assign `selected_format`, break on the first match. */
  method SelectFormatLoop(formats: seq<Format>, quality: string) returns (r: Result<string, SelectError>)
    ensures r == SelectFormat(formats, quality)
  {
    var selected: Field := Null;
    var i := 0;
    while i < |formats|
      invariant 0 <= i <= |formats|
      invariant selected == Null
      invariant Scan(formats[i..], quality) == Scan(formats, quality)
    {
      var fmt := formats[i];
      assert formats[i..][0] == fmt && formats[i..][1..] == formats[i + 1..];
      if 'p' in quality {
        var note := Get(fmt.formatNote, "");
        if note.None? {
          return Err(NoteNotIterable);
        }
        if Contains(note.value, quality) {
          if fmt.formatId.Absent? {
            return Err(MissingFormatId);
          }
          selected := fmt.formatId;
          break;
        }
      } else if quality == "best" && fmt.formatId == Str("best") {
        selected := fmt.formatId;
        break;
      } else if quality == "worst" && fmt.formatId == Str("worst") {
        selected := fmt.formatId;
        break;
      }
      i := i + 1;
    }
    if !Truthy(selected) {
      selected := Str("best");
    }
    r := Ok(selected.s);
  }

  /** The record's note, defaulted to "", is a string that contains `quality`. */
  predicate NoteMatches(fmt: Format, quality: string) {
    var note := Get(fmt.formatNote, "");
    note.Some? && Contains(note.value, quality)
  }

  /** The record's note, defaulted to "", is a string that does not contain `quality`. */
  predicate NoteMisses(fmt: Format, quality: string) {
    var note := Get(fmt.formatNote, "");
    note.Some? && !Contains(note.value, quality)
  }

  /**
   * A quality with a 'p' selects the code of the first record, in list order,
   * whose note contains it; "best" when that code is `None` or ""; and a
   * KeyError when that record has no `format_id`.
   */
  lemma {:induction false} PQualityPicksFirstMatch(formats: seq<Format>, quality: string, k: nat)
    requires MentionsP(quality)
    requires k < |formats| && NoteMatches(formats[k], quality)
    requires forall j :: 0 <= j < k ==> NoteMisses(formats[j], quality)
    ensures formats[k].formatId.Absent? ==> SelectFormat(formats, quality) == Err(MissingFormatId)
    ensures Truthy(formats[k].formatId) ==> SelectFormat(formats, quality) == Ok(formats[k].formatId.s)
    ensures formats[k].formatId in {Null, Str("")} ==> SelectFormat(formats, quality) == Ok("best")
  {
    ScanFirstMatch(formats, quality, k);
  }

  lemma {:induction false} ScanFirstMatch(formats: seq<Format>, quality: string, k: nat)
    requires MentionsP(quality)
    requires k < |formats| && NoteMatches(formats[k], quality)
    requires forall j :: 0 <= j < k ==> NoteMisses(formats[j], quality)
    ensures Scan(formats, quality) == if formats[k].formatId.Absent? then Err(MissingFormatId) else Ok(formats[k].formatId)
  {
    if k > 0 {
      assert NoteMisses(formats[0], quality);
      ScanFirstMatch(formats[1..], quality, k - 1);
    }
  }

  /** A quality with a 'p' that no note contains falls back to "best". */
  lemma {:induction false} PQualityWithoutMatchIsBest(formats: seq<Format>, quality: string)
    requires MentionsP(quality)
    requires forall j :: 0 <= j < |formats| ==> NoteMisses(formats[j], quality)
    ensures SelectFormat(formats, quality) == Ok("best")
  {
    ScanAllMiss(formats, quality);
  }

  lemma {:induction false} ScanAllMiss(formats: seq<Format>, quality: string)
    requires MentionsP(quality)
    requires forall j :: 0 <= j < |formats| ==> NoteMisses(formats[j], quality)
    ensures Scan(formats, quality) == Ok(Null)
  {
    if formats != [] {
      assert NoteMisses(formats[0], quality);
      ScanAllMiss(formats[1..], quality);
    }
  }

  /**
   * A quality with a 'p' raises the TypeError of a `None` note when such a
   * record is reached before any record whose note matches.
   */
  lemma {:induction false} PQualityNullNoteRaises(formats: seq<Format>, quality: string, k: nat)
    requires MentionsP(quality)
    requires k < |formats| && formats[k].formatNote == Null
    requires forall j :: 0 <= j < k ==> NoteMisses(formats[j], quality)
    ensures SelectFormat(formats, quality) == Err(NoteNotIterable)
  {
    if k > 0 {
      assert NoteMisses(formats[0], quality);
      PQualityNullNoteRaises(formats[1..], quality, k - 1);
    }
  }

  /** Asking for "best" always yields "best", matched or by the fallback. */
  lemma {:induction false} BestYieldsBest(formats: seq<Format>)
    ensures SelectFormat(formats, "best") == Ok("best")
  {
    assert !MentionsP("best");
    if formats != [] {
      BestYieldsBest(formats[1..]);
    }
  }

  /** A record whose code is exactly "worst". */
  predicate ListsWorst(formats: seq<Format>) {
    exists j :: 0 <= j < |formats| && formats[j].formatId == Str("worst")
  }

  /** Asking for "worst" yields "worst" exactly when some record has that code, "best" otherwise. */
  lemma {:induction false} WorstYieldsWorstIffListed(formats: seq<Format>)
    ensures ListsWorst(formats) ==> SelectFormat(formats, "worst") == Ok("worst")
    ensures !ListsWorst(formats) ==> SelectFormat(formats, "worst") == Ok("best")
  {
    assert !MentionsP("worst");
    if formats != [] && formats[0].formatId != Str("worst") {
      WorstYieldsWorstIffListed(formats[1..]);
      if ListsWorst(formats) {
        var j :| 0 <= j < |formats| && formats[j].formatId == Str("worst");
        assert formats[1..][j - 1].formatId == Str("worst");
      }
      if ListsWorst(formats[1..]) {
        var j :| 0 <= j < |formats[1..]| && formats[1..][j].formatId == Str("worst");
        assert formats[j + 1].formatId == Str("worst");
      }
    }
  }

  /** Any other quality without a 'p' ("", "medium", ...) yields "best". */
  lemma {:induction false} OtherQualityYieldsBest(formats: seq<Format>, quality: string)
    requires !MentionsP(quality) && quality != "best" && quality != "worst"
    ensures SelectFormat(formats, quality) == Ok("best")
  {
    if formats != [] {
      OtherQualityYieldsBest(formats[1..], quality);
    }
  }

  /** Labels "480p", "360p", "best": asking for "360p" picks the record labelled "360p". */
  lemma ResolutionExample()
    ensures SelectFormat([Format(Str("135"), Str("480p")), Format(Str("134"), Str("360p")),
                          Format(Str("best"), Str("best"))], "360p") == Ok("134")
  {
    var formats := [Format(Str("135"), Str("480p")), Format(Str("134"), Str("360p")),
                    Format(Str("best"), Str("best"))];
    assert MentionsP("360p");
    assert NoteMatches(formats[1], "360p") by {
      assert OccursAt("360p", "360p", 0);
    }
    assert NoteMisses(formats[0], "360p") by {
      forall i: nat ensures !OccursAt("480p", "360p", i) {
        if i == 0 { assert "480p"[0] != "360p"[0]; }
      }
    }
    PQualityPicksFirstMatch(formats, "360p", 1);
    assert Truthy(formats[1].formatId);
  }

  /**
   * Any quality with a 'p' takes the substring branch, not only "<digits>p":
   * "p" selects the first record whose note has a 'p' in it.
   */
  lemma AnyPIsSubstringBranch()
    ensures SelectFormat([Format(Str("137"), Str("1080p")), Format(Str("18"), Str("360p"))], "p") == Ok("137")
  {
    var formats := [Format(Str("137"), Str("1080p")), Format(Str("18"), Str("360p"))];
    assert MentionsP("p");
    assert NoteMatches(formats[0], "p") by {
      assert OccursAt("1080p", "p", 4);
    }
    PQualityPicksFirstMatch(formats, "p", 0);
    assert Truthy(formats[0].formatId);
  }
}
