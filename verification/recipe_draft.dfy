/** The text form of a recipe's ingredient and step lists on the recipes
    page: a list is edited as one newline-separated draft, and saved back by
    splitting on '\n', trimming every line and dropping the empty ones. */
module RecipeDraft {
  import opened Common
  import opened Strings
  import opened Types

  /** An element that a save leaves exactly as it is: non-empty, no white
      space at either end, and no line break inside. */
  predicate Clean(s: string)
  {
    s != "" && Trimmed(s) && '\n' !in s
  }

  /** The draft `handleEdit` puts in the text box: a list joined with '\n', a
      string kept as it is, a missing value as the empty string. */
  function DraftOf(f: ListField): (d: string)
    ensures f.Text? ==> d == f.text
    ensures f.Absent? ==> d == ""
    ensures f.Items? ==> d == Join(f.items, '\n')
  {
    match f
    case Items(items) => Join(items, '\n')
    case Text(t) => t
    case Absent => ""
  }

  /** The draft of a non-empty list whose items have no line break splits
      back into exactly those items; only the empty list and items with a
      line break of their own are not recovered. */
  lemma DraftSplitsBack(items: seq<string>)
    ensures Split(DraftOf(Items(items)), '\n') == items
      || |items| == 0 || exists i :: 0 <= i < |items| && '\n' in items[i]
  {
    if |items| > 0 && forall i :: 0 <= i < |items| ==> '\n' !in items[i] {
      SplitJoin(items, '\n');
    }
  }

  /** `draft.split('\n').map(s => s.trim()).filter(Boolean)`: every element is
      clean and is the trimmed form of a line of the draft, and every line that
      is not blank contributes its trimmed form. */
  function Normalize(draft: string): (r: seq<string>)
    ensures forall i :: 0 <= i < |r| ==> Clean(r[i])
    ensures forall i :: 0 <= i < |r| ==> r[i] in TrimAll(Split(draft, '\n'))
    ensures var lines := Split(draft, '\n');
      forall i :: 0 <= i < |lines| && Trim(lines[i]) != "" ==> Trim(lines[i]) in r
  {
    var lines := Split(draft, '\n');
    var trimmed := TrimAll(lines);
    var r := FilterNonEmpty(trimmed);
    forall i | 0 <= i < |r| ensures '\n' !in r[i] {
      var j :| 0 <= j < |trimmed| && trimmed[j] == r[i];
      assert '\n' !in lines[j];
    }
    forall i | 0 <= i < |lines| && Trim(lines[i]) != "" ensures Trim(lines[i]) in r {
      assert trimmed[i] == Trim(lines[i]);
    }
    r
  }

  /** A single line saves as its trimmed form, or as nothing when it is
      blank. */
  lemma NormalizeLine(line: string)
    requires '\n' !in line
    ensures Normalize(line) == if Trim(line) == "" then [] else [Trim(line)]
  {
    SplitSepFree(line, '\n');
    NormalizeLines(line, [line]);
    assert TrimAll([line]) == [Trim(line)];
    FilterOne(Trim(line));
  }

  /** Normalisation works line by line and keeps the order of the lines:
      the draft before a line break and the draft after it save independently,
      one after the other. */
  lemma NormalizeConcat(a: string, b: string)
    ensures Normalize(a + ['\n'] + b) == Normalize(a) + Normalize(b)
  {
    var la := Split(a, '\n');
    var lb := Split(b, '\n');
    SplitConcat(a, b, '\n');
    NormalizeLines(a + ['\n'] + b, la + lb);
    NormalizeLines(a, la);
    NormalizeLines(b, lb);
    TrimAllAppend(la, lb);
    FilterAppend(TrimAll(la), TrimAll(lb));
  }

  /** Saving an unedited draft gives the list back, provided every element was
      already clean; this includes the empty list, whose draft is ''. */
  lemma NormalizeRoundTrip(items: seq<string>)
    requires forall i :: 0 <= i < |items| ==> Clean(items[i])
    ensures Normalize(Join(items, '\n')) == items
  {
    if |items| == 0 {
      NormalizeEmpty();
    } else {
      SplitJoin(items, '\n');
      NormalizeLines(Join(items, '\n'), items);
      TrimAllClean(items);
    }
  }

  /** The empty draft saves as the empty list. */
  lemma NormalizeEmpty()
    ensures Normalize("") == []
  {
    assert Split("", '\n') == [""];
    assert TrimAll([""]) == [""];
    assert FilterNonEmpty([""]) == [];
  }

  /** `Normalize` in terms of a known split of the draft. */
  lemma NormalizeLines(draft: string, lines: seq<string>)
    requires Split(draft, '\n') == lines
    ensures Normalize(draft) == FilterNonEmpty(TrimAll(lines))
  {
  }

  /** Clean lines are left alone by trimming and by the empty-line filter. */
  lemma TrimAllClean(items: seq<string>)
    requires forall i :: 0 <= i < |items| ==> Clean(items[i])
    ensures FilterNonEmpty(TrimAll(items)) == items
  {
    assert TrimAll(items) == items;
  }

  /** Normalisation is idempotent: saving the draft of a saved list changes
      nothing. */
  lemma NormalizeIdempotent(draft: string)
    ensures Normalize(Join(Normalize(draft), '\n')) == Normalize(draft)
  {
    NormalizeRoundTrip(Normalize(draft));
  }

  /** Display mode: a list is shown element by element, anything else as a
      one-element list (a missing value renders as an empty item). */
  function DisplayItems(f: ListField): (r: seq<Option<string>>)
    ensures f.Items? ==> |r| == |f.items| && forall i :: 0 <= i < |r| ==> r[i] == Some(f.items[i])
    ensures f.Text? ==> r == [Some(f.text)]
    ensures f.Absent? ==> r == [None]
  {
    match f
    case Items(items) => seq(|items|, i requires 0 <= i < |items| => Some(items[i]))
    case Text(t) => [Some(t)]
    case Absent => [None]
  }
}
