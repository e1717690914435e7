/**
  The record parser: split a profile or README into its YAML metadata block
  and its narrative body. The delimiter is the plain substring `---`,
  wherever it stands; the text is cut with `split('---', 2)`, so at most
  three pieces result and any later `---` stays in the body.
  (generate_metadata.py and build_web.py each carry a copy; the two are
  textually identical and both are this function.)
 */
module Frontmatter {
  import opened Wrappers
  import opened PyStr
  import opened Yaml

  const Delimiter: string := "---"

  /** What `parse_frontmatter` returns: the metadata and the body. */
  datatype Parsed = Parsed(meta: Value, body: string)

  /**
    `content.split('---', 2)` on text that starts with `---`: an empty first
    piece, then either the rest whole (no second delimiter) or the text up to
    the second delimiter and everything after it.
   */
  lemma SplitAtDelimiters(content: string)
    requires StartsWith(content, Delimiter)
    ensures Split(content, Delimiter, 2)
      == match Find(content, Delimiter, 3)
         case None => ["", content[3..]]
         case Some(j) => ["", content[3..j], content[j + 3..]]
  {
    OpeningSplit(content);
    ClosingSplit(content);
  }

  /** The opening `---` is found at 0 and cut off as an empty first piece. */
  lemma OpeningSplit(content: string)
    requires StartsWith(content, Delimiter)
    ensures Split(content, Delimiter, 2) == [""] + SplitFrom(content, Delimiter, 3, 1)
  {
    assert content[0..3] == Delimiter;
    assert Find(content, Delimiter, 0) == Some(0);
    assert content[0..0] == "";
  }

  /** After the opening `---`, one more split is made at the next `---`, if any. */
  lemma ClosingSplit(content: string)
    requires 3 <= |content|
    ensures SplitFrom(content, Delimiter, 3, 1)
      == match Find(content, Delimiter, 3)
         case None => [content[3..]]
         case Some(j) => [content[3..j], content[j + 3..]]
  {
  }

  /**
    `parse_frontmatter`. Without an opening `---`, or without a closing one,
    or when the loader rejects the block, the result is `({}, content)`;
    otherwise the metadata is the loaded block (falsy results, `None` among
    them, become `{}`) and the body is the rest after the second `---`,
    stripped.
   */
  function ParseFrontmatter(content: string, load: Loader): (r: Parsed)
    ensures !StartsWith(content, Delimiter) ==> r == Parsed(EmptyMap, content)
    ensures StartsWith(content, Delimiter) && Find(content, Delimiter, 3).None?
      ==> r == Parsed(EmptyMap, content)
    ensures StartsWith(content, Delimiter) && Find(content, Delimiter, 3).Some?
      ==> 3 <= Find(content, Delimiter, 3).value <= |content| - 3
    ensures StartsWith(content, Delimiter) && Find(content, Delimiter, 3).Some?
            && load(content[3..Find(content, Delimiter, 3).value]).None?
      ==> r == Parsed(EmptyMap, content)
    ensures StartsWith(content, Delimiter) && Find(content, Delimiter, 3).Some?
            && load(content[3..Find(content, Delimiter, 3).value]).Some?
      ==> r == Parsed(OrEmpty(load(content[3..Find(content, Delimiter, 3).value]).value),
                      Strip(content[Find(content, Delimiter, 3).value + 3..]))
  {
    if !StartsWith(content, Delimiter) then Parsed(EmptyMap, content)
    else
      var parts := Split(content, Delimiter, 2);
      SplitAtDelimiters(content);
      if |parts| < 3 then Parsed(EmptyMap, content)
      else match load(parts[1])
        case None => Parsed(EmptyMap, content)
        case Some(v) => Parsed(OrEmpty(v), Strip(parts[2]))
  }

  /** The parse either fails soft, keeping the whole text as body, or yields a body no longer than the text. */
  lemma ParseFailsSoft(content: string, load: Loader)
    ensures var r := ParseFrontmatter(content, load);
      r == Parsed(EmptyMap, content) || (|r.body| <= |content| - 6 && StartsWith(content, Delimiter))
  {
  }

  /** The block handed to the loader never contains the delimiter: it is cut at the first closing `---`. */
  lemma BlockHasNoDelimiter(content: string, k: nat)
    requires StartsWith(content, Delimiter) && Find(content, Delimiter, 3).Some?
    ensures !OccursAt(content[3..Find(content, Delimiter, 3).value], Delimiter, k)
  {
    FindPrefixFree(content, Delimiter, 3, Find(content, Delimiter, 3).value);
  }

  /** A `null` (or empty) YAML block gives `{}` as metadata and still yields the stripped body. */
  lemma NullBlockGivesEmptyMap(content: string, load: Loader, v: Value)
    requires StartsWith(content, Delimiter) && Find(content, Delimiter, 3).Some?
    requires load(content[3..Find(content, Delimiter, 3).value]) == Some(v) && !Truthy(v)
    ensures ParseFrontmatter(content, load)
      == Parsed(EmptyMap, Strip(content[Find(content, Delimiter, 3).value + 3..]))
  {
  }

  /** When the block loads, the body is what follows the closing delimiter, stripped. */
  lemma BodyIsStrippedRest(content: string, load: Loader)
    requires StartsWith(content, Delimiter) && Find(content, Delimiter, 3).Some?
    requires load(content[3..Find(content, Delimiter, 3).value]).Some?
    ensures ParseFrontmatter(content, load).body == Strip(content[Find(content, Delimiter, 3).value + 3..])
  {
    var j := Find(content, Delimiter, 3).value;
    var v := load(content[3..j]).value;
    assert load(content[3..j]) == Some(v);
  }

  /**
    A `---` after the closing delimiter (at `j`) is not a delimiter any more:
    an occurrence at `m` in the remainder stays in the body, shifted by the
    whitespace cut off in front of it.
   */
  lemma LaterDelimiterKept(content: string, load: Loader, j: nat, m: nat)
    requires StartsWith(content, Delimiter) && Find(content, Delimiter, 3) == Some(j)
    requires load(content[3..j]).Some?
    requires OccursAt(content[j + 3..], Delimiter, m)
    ensures LeadingSpace(content[j + 3..]) <= m
    ensures OccursAt(ParseFrontmatter(content, load).body, Delimiter, m - LeadingSpace(content[j + 3..]))
  {
    BodyIsStrippedRest(content, load);
    StripKeepsText(content[j + 3..], Delimiter, m);
  }
}
