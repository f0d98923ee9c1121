/**
 * extract_parameters from cal/emto-cpa.py: the result extractor that scans
 * an analysis log for the first line mentioning a keyword. The file is given
 * as its lines (what `readlines` returns), or None when opening or reading it
 * fails; the source catches that error and returns None too.
 */
module Extractor {
  import opened Wrappers
  import opened Text

  /** First line that contains `keyword`, by index. */
  ghost predicate FirstMention(lines: seq<string>, keyword: string, i: int) {
    0 <= i < |lines| && Contains(lines[i], keyword)
    && forall j :: 0 <= j < i ==> !Contains(lines[j], keyword)
  }

  /**
   * The stripped, whitespace-split fields of the first line containing
   * `keyword` as a substring; a later matching line is never used.
   */
  method ExtractParameters(file: Option<seq<string>>, keyword: string) returns (r: Option<seq<string>>)
    ensures file.None? ==> r.None?
    ensures file.Some? ==>
      (r.None? <==> forall i :: 0 <= i < |file.value| ==> !Contains(file.value[i], keyword))
    ensures file.Some? && r.Some? ==>
      exists i :: FirstMention(file.value, keyword, i) && r.value == Tokens(Strip(file.value[i]))
  {
    if file.None? {
      return None;
    }
    var lines := file.value;
    var i := 0;
    while i < |lines|
      invariant 0 <= i <= |lines|
      invariant forall j :: 0 <= j < i ==> !Contains(lines[j], keyword)
    {
      if Contains(lines[i], keyword) {
        assert FirstMention(lines, keyword, i);
        return Some(Tokens(Strip(lines[i])));
      }
      i := i + 1;
    }
    return None;
  }
}
