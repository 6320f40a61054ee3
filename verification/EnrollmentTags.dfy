/**
 The comma-separated tag list of an approval: cleaned when stored, split again when
 the tags are injected into address books.
 */
module EnrollmentTags {
  import opened Text
  import opened Values
  import opened AdminTags

  function Join(parts: seq<string>): string {
    if parts == [] then ""
    else if |parts| == 1 then parts[0]
    else parts[0] + "," + Join(parts[1..])
  }

  /** The tags of a raw list: trimmed, not empty, first occurrences in order. */
  function TagList(raw: string): seq<string> {
    if TrimSpace(raw) == "" then [] else Dedup({}, NonBlank(Split(raw, ',')))
  }

  method NormalizeEnrollmentTags(raw: string) returns (tags: string)
    ensures tags == Join(TagList(raw))
  {
    hide TrimSpace, Split;
    if TrimSpace(raw) == "" {
      return "";
    }
    var seen: set<string> := {};
    var out: seq<string> := [];
    var parts := Split(raw, ',');
    assert parts[0..] == parts;
    for i := 0 to |parts|
      invariant out + Dedup(seen, NonBlank(parts[i..])) == Dedup({}, NonBlank(parts))
    {
      var t := TrimSpace(parts[i]);
      assert parts[i..][0] == parts[i] && parts[i..][1..] == parts[i + 1..];
      var rest := NonBlank(parts[i + 1..]);
      assert NonBlank(parts[i..]) == (if t != "" then [t] else []) + rest;
      assert [] + rest == rest && ([t] + rest)[1..] == rest;
      if t == "" {
        continue;
      }
      if t in seen {
        continue;
      }
      seen := seen + {t};
      out := out + [t];
    }
    assert parts[|parts|..] == [] && out + [] == out;
    tags := Join(out);
  }

  // ----- a normalised list reads back

  ghost predicate CommaFree(s: string) {
    forall i :: 0 <= i < |s| ==> s[i] != ','
  }

  // What a normalised list consists of.
  ghost predicate CleanTags(parts: seq<string>) {
    forall i :: 0 <= i < |parts| ==> parts[i] != "" && Trimmed(parts[i]) && CommaFree(parts[i])
  }

  lemma {:induction false} SplitOne(s: string, rest: string)
    requires CommaFree(s)
    ensures Split(s, ',') == [s]
    ensures Split(s + "," + rest, ',') == [s] + Split(rest, ',')
    decreases |s|
  {
    if s == "" {
      assert s + "," + rest == "," + rest;
      assert ("," + rest)[1..] == rest;
    } else {
      SplitOne(s[1..], rest);
      assert (s + "," + rest)[1..] == s[1..] + "," + rest;
      assert [s[0]] + s[1..] == s;
    }
  }

  lemma {:induction false} SplitJoin(parts: seq<string>)
    requires parts != [] && CleanTags(parts)
    ensures Split(Join(parts), ',') == parts
  {
    SplitOne(parts[0], Join(parts[1..]));
    if |parts| > 1 {
      SplitJoin(parts[1..]);
      assert parts == [parts[0]] + parts[1..];
    }
  }

  lemma {:induction false} SplitCommaFree(s: string)
    ensures forall i :: 0 <= i < |Split(s, ',')| ==> CommaFree(Split(s, ',')[i])
  {
    if s != "" {
      SplitCommaFree(s[1..]);
    }
  }

  lemma {:induction false} NonBlankClean(parts: seq<string>)
    requires forall i :: 0 <= i < |parts| ==> CommaFree(parts[i])
    ensures CleanTags(NonBlank(parts))
  {
    if parts != [] {
      NonBlankClean(parts[1..]);
      TrimSpaceTrims(parts[0]);
      TrimLeftShape(parts[0]);
      TrimRightShape(TrimLeft(parts[0]));
    }
  }

  lemma {:induction false} NonBlankSame(parts: seq<string>)
    requires CleanTags(parts)
    ensures NonBlank(parts) == parts
  {
    if parts != [] {
      NonBlankSame(parts[1..]);
      TrimSpaceTrims(parts[0]);
      assert parts == [parts[0]] + parts[1..];
    }
  }

  lemma {:induction false} DedupClean(seen: set<string>, tags: seq<string>)
    requires CleanTags(tags)
    ensures CleanTags(Dedup(seen, tags))
    decreases |tags|
  {
    if tags != [] {
      DedupClean(seen, tags[1..]);
      DedupClean(seen + {tags[0]}, tags[1..]);
    }
  }

  lemma TagListClean(raw: string)
    ensures CleanTags(TagList(raw))
    ensures TagList(raw) != [] ==> Join(TagList(raw)) != "" && TrimSpace(Join(TagList(raw))) != ""
  {
    SplitCommaFree(raw);
    NonBlankClean(Split(raw, ','));
    DedupClean({}, NonBlank(Split(raw, ',')));
    if TagList(raw) != [] {
      JoinNotBlank(TagList(raw));
    }
  }

  lemma JoinNotBlank(parts: seq<string>)
    requires parts != [] && CleanTags(parts)
    ensures Join(parts) != "" && TrimSpace(Join(parts)) != ""
  {
    var s := Join(parts);
    assert s[0] == parts[0][0];
    TrimLeftShape(s);
    assert TrimLeft(s) == s;
    TrimRightShape(s);
    NotAllSpace(s);
  }

  lemma {:induction false} NotAllSpace(s: string)
    requires s != "" && !IsSpace(s[0])
    ensures TrimRight(s) != ""
  {
    if IsSpace(s[|s| - 1]) {
      NotAllSpace(s[..|s| - 1]);
    }
  }

  /** What an approval stores is what an address book gets: reading the stored list gives the
      tags back, in order; cleaning a cleaned list changes nothing. */
  lemma StoredTagsReadBack(raw: string, row: Row)
    requires row.tags == Join(TagList(raw))
    ensures RowTags(row) == TagList(raw)
    ensures Join(TagList(row.tags)) == row.tags
  {
    var tags := TagList(raw);
    TagListClean(raw);
    if tags != [] {
      SplitJoin(tags);
      NonBlankSame(tags);
      DedupAgain({}, {}, NonBlank(Split(raw, ',')));
    }
  }
}
