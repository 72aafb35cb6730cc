/** `validate_html`: the placeholder check that a page mentions `<html>`. */
module HtmlUtils {
  import opened Common
  import opened Text

  /** `validate_html(html_content)`: false for the empty string, otherwise
      whether the exact text "<html>" occurs. */
  function ValidateHtml(s: string): (ok: bool)
    ensures ok <==> Contains(s, "<html>")
    ensures s == "" ==> !ok
  {
    if s == "" then false
    else Find(s, "<html>").Some?
  }

  /** Anything around an `<html>` tag is accepted, whatever it is. */
  lemma AcceptsAnyWithTag(a: string, b: string)
    ensures ValidateHtml(a + "<html>" + b)
  {
    var s := a + "<html>" + b;
    assert s[|a|..|a| + 6] == "<html>";
    assert OccursAt(s, "<html>", |a|);
  }

  /** The opening tag with an attribute is not the bare tag, so a page that
      has only that is rejected. */
  lemma RejectsTagWithAttributes()
    ensures !ValidateHtml("<html lang=\"en\"></html>")
  {
    var s := "<html lang=\"en\"></html>";
    forall i: nat | i <= |s| ensures !OccursAt(s, "<html>", i) {
      if i + 6 <= |s| {
        var w := s[i..i + 6];
        assert w[0] == s[i] && w[1] == s[i + 1] && w[5] == s[i + 5];
      }
    }
  }
}
