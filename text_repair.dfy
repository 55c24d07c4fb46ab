/** `clean_and_repair_text`, which all three Python entry points define with their own
    replacement map:

      if not text: return ""
      for bad, good in replacements.items(): text = text.replace(bad, good)
      return re.sub(r'\s+', ' ', text).strip()
*/
module TextRepair {
  import opened PyText

  /** No key of the map is whitespace. */
  predicate KeysNotSpace(pairs: Replacements) {
    forall k :: 0 <= k < |pairs| ==> !IsSpace(pairs[k].0)
  }

  /** The value of `clean_and_repair_text(text)` for the map `pairs`. */
  function CleanAndRepair(text: string, pairs: Replacements): string
  {
    if text == [] then [] else NormalizeSpace(ReplaceEach(text, pairs))
  }

  /** The replacement loop: each pair in the dictionary's order, applied to the text so far. */
  method ReplaceAll(text: string, pairs: Replacements) returns (t: string)
    ensures t == ReplaceEach(text, pairs)
  {
    t := text;
    for k := 0 to |pairs|
      invariant t == ReplaceEach(text, pairs[..k])
    {
      assert pairs[..k + 1][..k] == pairs[..k];
      t := ReplaceChar(t, pairs[k].0, pairs[k].1);
    }
    assert pairs[..|pairs|] == pairs;
  }

  /** The function body: the early return, the loop, then the whitespace rewrite. */
  method CleanAndRepairText(text: string, pairs: Replacements) returns (r: string)
    ensures r == CleanAndRepair(text, pairs)
  {
    if text == [] {
      return "";
    }
    var t := ReplaceAll(text, pairs);
    r := NormalizeSpace(t);
  }

  /** What the result looks like: empty for empty input; no key of the map left; trimmed,
      single-spaced and with ' ' as its only whitespace; the non-whitespace characters of
      the replaced text kept in order; nothing but ' ', characters of `text` and
      characters of the values. */
  lemma CleanAndRepairShape(text: string, pairs: Replacements)
    requires ValuesAvoidKeys(pairs) && KeysNotSpace(pairs)
    ensures text == [] ==> CleanAndRepair(text, pairs) == []
    ensures forall k :: 0 <= k < |pairs| ==> pairs[k].0 !in CleanAndRepair(text, pairs)
    ensures SpaceNormal(CleanAndRepair(text, pairs))
    ensures text != [] ==>
      Without(CleanAndRepair(text, pairs), IsSpace) == Without(ReplaceEach(text, pairs), IsSpace)
    ensures forall c :: c in CleanAndRepair(text, pairs) ==>
              c == ' ' || c in text || exists k :: 0 <= k < |pairs| && c in pairs[k].1
  {
    if text != [] {
      var t := ReplaceEach(text, pairs);
      ReplaceEachChars(text, pairs);
      NormalizeSpaceShape(t);
      forall k | 0 <= k < |pairs|
        ensures pairs[k].0 !in CleanAndRepair(text, pairs)
      {
        assert pairs[k].0 != ' ';
      }
    }
  }

  /** Cleaning a cleaned text changes nothing. */
  lemma CleanAndRepairIdempotent(text: string, pairs: Replacements)
    requires ValuesAvoidKeys(pairs) && KeysNotSpace(pairs)
    ensures CleanAndRepair(CleanAndRepair(text, pairs), pairs) == CleanAndRepair(text, pairs)
  {
    var r := CleanAndRepair(text, pairs);
    CleanAndRepairShape(text, pairs);
    if r != [] {
      ReplaceEachAbsent(r, pairs);
      NormalizeSpaceFixed(r);
    }
  }

  /** The page loop of `ingest_master`: the cleaned text of every page that has text,
      each followed by a blank line. A page without text (`None` or "") is written "" here
      and adds nothing. */
  function JoinPages(pages: seq<string>, pairs: Replacements): string
  {
    if pages == [] then []
    else
      var last := pages[|pages| - 1];
      JoinPages(pages[..|pages| - 1], pairs) + (if last != [] then CleanAndRepair(last, pairs) + "\n\n" else [])
  }

  /** `full_text += clean_and_repair_text(t) + "\n\n"` for each page with text. */
  method ExtractPages(pages: seq<string>, pairs: Replacements) returns (full: string)
    ensures full == JoinPages(pages, pairs)
  {
    full := "";
    for i := 0 to |pages|
      invariant full == JoinPages(pages[..i], pairs)
    {
      assert pages[..i + 1][..i] == pages[..i];
      if pages[i] != [] {
        var cleaned := CleanAndRepairText(pages[i], pairs);
        full := full + cleaned + "\n\n";
      }
    }
    assert pages[..|pages|] == pages;
  }

  /** No key of the map survives in the joined text. */
  lemma {:induction false} JoinPagesNoKeys(pages: seq<string>, pairs: Replacements)
    requires ValuesAvoidKeys(pairs) && KeysNotSpace(pairs)
    ensures forall k :: 0 <= k < |pairs| ==> pairs[k].0 !in JoinPages(pages, pairs)
    decreases |pages|
  {
    if pages != [] {
      var last := pages[|pages| - 1];
      JoinPagesNoKeys(pages[..|pages| - 1], pairs);
      CleanAndRepairShape(last, pairs);
      forall k | 0 <= k < |pairs|
        ensures pairs[k].0 !in JoinPages(pages, pairs)
      {
        assert pairs[k].0 != '\n';
      }
    }
  }

  /** The joined text is empty exactly when no page has text. */
  lemma {:induction false} JoinPagesEmptyIff(pages: seq<string>, pairs: Replacements)
    ensures JoinPages(pages, pairs) == [] <==> forall i :: 0 <= i < |pages| ==> pages[i] == []
    decreases |pages|
  {
    if pages != [] {
      var init := pages[..|pages| - 1];
      JoinPagesEmptyIff(init, pairs);
      if JoinPages(pages, pairs) == [] {
        assert JoinPages(init, pairs) == [];
        forall i | 0 <= i < |pages| ensures pages[i] == [] {
          if i < |init| {
            assert pages[i] == init[i];
          }
        }
      }
      assert forall i :: 0 <= i < |init| ==> init[i] == pages[i];
    }
  }
}
