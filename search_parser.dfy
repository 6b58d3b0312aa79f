/** `SearchParameterParser`: the comma-separated list of fields a film
    search looks in. */
module SearchParameterParser {
  import opened Common
  import opened Text

  /** The two fields a search may name. */
  predicate IsSearchField(s: string) {
    s == "title" || s == "director"
  }

  /** Every piece names a field once surrounding blanks are trimmed. */
  predicate AllFieldsKnown(pieces: seq<string>) {
    forall i :: 0 <= i < |pieces| ==> IsSearchField(Trim(pieces[i]))
  }

  /** `parseSearchParameters(by)`: splits the field list on commas and rejects it with
      IllegalArgumentException unless every piece trims to a field name; the
      pieces come back as split, untrimmed. */
  function ParseSearchParameters(fields: string): (r: Result<seq<string>>)
    ensures r.Ok? <==> AllFieldsKnown(JavaSplit(fields, ','))
    ensures r.Err? ==> r.error == IllegalArgument
    ensures r.Ok? ==> r.value == JavaSplit(fields, ',')
    ensures r.Ok? ==> forall i :: 0 <= i < |r.value| ==> IsSearchField(Trim(r.value[i])) && ',' !in r.value[i]
  {
    var pieces := JavaSplit(fields, ',');
    if AllFieldsKnown(pieces) then Ok(pieces) else Err(IllegalArgument)
  }

  /** What is accepted splits `by` completely: joining the returned pieces
      with commas gives the list back, up to the trailing commas the split drops. */
  lemma {:induction false} ParsedPiecesRebuildInput(fields: string)
    requires ParseSearchParameters(fields).Ok?
    ensures exists k: nat :: fields == JoinPadded(ParseSearchParameters(fields).value, k)
  {
    var k := SplitRebuildsInput(fields);
    assert fields == JoinPadded(ParseSearchParameters(fields).value, k);
  }

  /** Java's split drops only trailing empty pieces, so its result, padded
      back with `k` empty pieces, joins to the input. */
  lemma {:induction false} SplitRebuildsInput(fields: string) returns (k: nat)
    ensures fields == JoinPadded(JavaSplit(fields, ','), k)
  {
    var all := SplitAll(fields, ',');
    var r := JavaSplit(fields, ',');
    JoinSplitAll(fields, ',');
    k := |all| - |r|;
    assert all == r + all[|r|..];
    forall i | 0 <= i < k ensures all[|r|..][i] == "" {
    }
    JoinEmptyTail(r, all[|r|..]);
    assert fields == JoinPadded(r, k);
  }

  /** The pieces joined with commas, followed by `k` empty pieces. */
  function JoinPadded(ps: seq<string>, k: nat): string {
    Join(ps + seq(k, _ => ""), [','])
  }

  lemma JoinEmptyTail(ps: seq<string>, tail: seq<string>)
    requires forall i :: 0 <= i < |tail| ==> tail[i] == ""
    ensures Join(ps + tail, [',']) == JoinPadded(ps, |tail|)
  {
    assert tail == seq(|tail|, _ => "");
  }

  /** Each field name is its own trim and holds no comma. */
  lemma SearchFieldIsWord(field: string)
    requires IsSearchField(field)
    ensures field != [] && !IsTrimmed(field[0]) && !IsTrimmed(field[|field| - 1])
    ensures Trim(field) == field && ',' !in field
  {
    TrimUnchanged(field);
  }

  lemma AcceptedAs(fields: string, pieces: seq<string>)
    requires JavaSplit(fields, ',') == pieces && AllFieldsKnown(pieces)
    ensures ParseSearchParameters(fields) == Ok(pieces)
  {
  }

  /** An empty list splits to one empty piece, which is rejected. */
  lemma EmptyRejected()
    ensures ParseSearchParameters("") == Err(IllegalArgument)
  {
    assert JavaSplit("", ',') == [""];
    assert !IsSearchField(Trim([""][0]));
  }

  /** A leading comma leaves an empty first piece, which is rejected. */
  lemma LeadingCommaRejected()
    ensures ParseSearchParameters(",title") == Err(IllegalArgument)
  {
    var s := ",title";
    SplitAllAt(s, ',', 0);
    assert s[..0] == "";
    var pieces := JavaSplit(s, ',');
    assert pieces[0] == "";
    var t := Trim(pieces[0]);
    assert t == [];
    assert !IsSearchField(t);
  }

  /** A trailing comma is dropped by the split. */
  lemma TrailingCommaAccepted()
    ensures ParseSearchParameters("title,") == Ok(["title"])
  {
    var field := "title";
    TrailingCommaSplit();
    SearchFieldIsWord(field);
    KnownSingle(field);
    AcceptedAs("title,", [field]);
  }

  lemma KnownSingle(a: string)
    requires IsSearchField(Trim(a))
    ensures AllFieldsKnown([a])
  {
    var pieces := [a];
    forall i | 0 <= i < |pieces|
      ensures IsSearchField(Trim(pieces[i]))
    {
      assert pieces[i] == a;
    }
  }

  lemma TrailingCommaSplit()
    ensures JavaSplit("title,", ',') == ["title"]
  {
    var s := "title,";
    var a, b := s[..5], s[6..];
    assert a == "title" && b == "";
    SplitAllAt(s, ',', 5);
    var all := SplitAll(s, ',');
    assert all == [a, b];
    assert DropTrailingEmpty(all) == DropTrailingEmpty([a]) == [a];
    assert ',' in s;
  }

  /** Blanks before a field pass the check but stay in the piece returned. */
  lemma PaddedFieldKeptUntrimmed(first: string, pad: string, second: string)
    requires IsSearchField(first) && IsSearchField(second)
    requires forall i :: 0 <= i < |pad| ==> IsTrimmed(pad[i])
    ensures ParseSearchParameters(first + "," + pad + second) == Ok([first, pad + second])
  {
    PaddedFieldSplit(first, pad, second);
    PaddedPiecesKnown(first, pad, second);
    AcceptedAs(first + "," + pad + second, [first, pad + second]);
  }

  lemma PaddedPiecesKnown(first: string, pad: string, second: string)
    requires IsSearchField(first) && IsSearchField(second)
    requires forall i :: 0 <= i < |pad| ==> IsTrimmed(pad[i])
    ensures AllFieldsKnown([first, pad + second])
  {
    SearchFieldIsWord(first);
    PaddedFieldTrims(pad, second);
    KnownPair(first, pad + second);
  }

  lemma KnownPair(a: string, b: string)
    requires IsSearchField(Trim(a)) && IsSearchField(Trim(b))
    ensures AllFieldsKnown([a, b])
  {
    var pieces := [a, b];
    forall i | 0 <= i < |pieces|
      ensures IsSearchField(Trim(pieces[i]))
    {
      if i == 0 {
        assert pieces[i] == a;
      } else {
        assert pieces[i] == b;
      }
    }
  }

  lemma PaddedFieldTrims(pad: string, field: string)
    requires IsSearchField(field)
    requires forall i :: 0 <= i < |pad| ==> IsTrimmed(pad[i])
    ensures IsSearchField(Trim(pad + field))
  {
    TrimLeadingBlanks(pad, field);
  }

  lemma PaddedFieldSplit(first: string, pad: string, second: string)
    requires IsSearchField(first) && IsSearchField(second)
    requires forall i :: 0 <= i < |pad| ==> IsTrimmed(pad[i])
    ensures JavaSplit(first + "," + pad + second, ',') == [first, pad + second]
  {
    var s := first + "," + pad + second;
    var n := |first|;
    var b := pad + second;
    assert ',' !in first && ',' !in second;
    assert s[..n] == first && s[n + 1..] == b;
    forall i | 0 <= i < |b| ensures b[i] != ',' {
      if i >= |pad| {
        assert b[i] == second[i - |pad|];
      }
    }
    SplitAllAt(s, ',', n);
    SplitAllNoSeparator(b, ',');
    var all := SplitAll(s, ',');
    assert all == [first, b];
    assert all[1] != "";
    assert DropTrailingEmpty(all) == all;
    assert ',' in s;
  }

  /** A field named twice is accepted, and named twice in the result. */
  lemma DuplicateAccepted(field: string)
    requires IsSearchField(field)
    ensures ParseSearchParameters(field + "," + field) == Ok([field, field])
  {
    var s := field + "," + field;
    DuplicateSplit(field);
    TrimUnchanged(field);
    var pieces := [field, field];
    assert forall i :: 0 <= i < |pieces| ==> pieces[i] == field;
    AcceptedAs(s, pieces);
  }

  lemma DuplicateSplit(field: string)
    requires IsSearchField(field)
    ensures JavaSplit(field + "," + field, ',') == [field, field]
  {
    var s := field + "," + field;
    var n := |field|;
    assert ',' !in field;
    assert s[..n] == field && s[n + 1..] == field;
    SplitAllAt(s, ',', n);
    SplitAllNoSeparator(field, ',');
    var all := SplitAll(s, ',');
    assert all == [field, field];
    assert all[1] != "";
    assert DropTrailingEmpty(all) == all;
    assert ',' in s;
  }

  /** A lone comma splits to no pieces at all and is accepted. */
  lemma LoneCommaGivesNoFields()
    ensures ParseSearchParameters(",") == Ok([])
  {
    SplitAllAt(",", ',', 0);
    assert ","[..0] == "" && ","[1..] == "";
    assert SplitAll(",", ',') == ["", ""];
  }
}
