/** The background variant chosen for each page path
    (frontend/contexts/AuroraContext.tsx). */
module Aurora {
  import opened Common

  datatype Variant = Home | Browse | New | Topic

  /** `getVariantFromPath`: "/browse" and "/new" match exactly, any path
      under "/topic/" is a topic page, and everything else (including "/")
      falls back to the home variant. */
  function VariantFromPath(path: string): (v: Variant)
    ensures v == Browse <==> path == "/browse"
    ensures v == New <==> path == "/new"
    ensures v == Topic <==> StartsWith(path, "/topic/")
    ensures v == Home <==> path != "/browse" && path != "/new" && !StartsWith(path, "/topic/")
  {
    if path == "/" then Home
    else if path == "/browse" then
      assert path[..7][1] != "/topic/"[1];
      Browse
    else if path == "/new" then
      assert |path| < 7;
      New
    else if StartsWith(path, "/topic/") then Topic
    else Home
  }

  /** Exact matching: a path below "/browse" is not the browse page, and
      "/topic" without its trailing slash is not a topic page. */
  lemma ExactMatchesOnly()
    ensures VariantFromPath("/") == Home
    ensures VariantFromPath("/browse/x") == Home
    ensures VariantFromPath("/new/") == Home
    ensures VariantFromPath("/topic") == Home
    ensures VariantFromPath("/topic/42") == Topic
  {
    assert "/browse/x"[..7][1] != "/topic/"[1];
    assert |"/new/"| < 7;
    assert "/topic/42"[..7] == "/topic/";
  }
}
