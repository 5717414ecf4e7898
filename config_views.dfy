/**
 * backend/config/views.py: serving uploaded media and the built frontend.
 * Both views strip slashes from the requested path and refuse any path
 * that contains "..".
 *
 * The file system is the set of relative paths that name regular files
 * under the directory in question; `mimetypes.guess_type` is a parameter.
 */
module ConfigViews {
  import opened Common

  const OctetStream := "application/octet-stream"
  const FrontendMissingText := "Frontend não encontrado. Rode: cd frontend && npm run build"

  datatype Response =
    | Http404
    | JsonNotFound(error: string)
    | Served(rel: string, contentType: string)

  predicate IsSlash(c: char)
  {
    c == '/'
  }

  /** `path.strip('/')`. */
  function StripSlashes(path: string): string
  {
    StripWith(path, IsSlash)
  }

  /** The check both views make on the stripped path. */
  predicate Unsafe(p: string)
  {
    ContainsStr(p, "..") || StartsWith(p, "/")
  }

  /** After stripping, a path neither starts nor ends with '/'; so the `startswith('/')` half of the check never fires. */
  lemma StrippedHasNoEdgeSlash(path: string)
    ensures var p := StripSlashes(path);
            p == "" || (p[0] != '/' && p[|p| - 1] != '/')
    ensures Unsafe(StripSlashes(path)) <==> ContainsStr(StripSlashes(path), "..")
  {
    var n := LeadCount(path, IsSlash);
    var d := path[n..];
    var t := TrailCount(d, IsSlash);
    var p := StripSlashes(path);
    assert p == d[..|d| - t];
    if |p| > 0 {
      assert n < |path| && !IsSlash(path[n]);
      assert p[0] == path[n];
      assert p[|p| - 1] == d[|d| - t - 1];
    }
  }

  /** `content_type or 'application/octet-stream'`. */
  function ContentType(guess: string -> Option<string>, rel: string): (r: string)
    ensures guess(rel).None? ==> r == OctetStream
    ensures guess(rel).Some? && guess(rel).value != "" ==> r == guess(rel).value
  {
    if guess(rel).Some? && guess(rel).value != "" then guess(rel).value else OctetStream
  }

  /**
   * `serve_media`: 404 when the media root is missing, when the stripped
   * path contains "..", or when it names no file; otherwise that file.
   */
  function ServeMedia(rootExists: bool, files: set<string>, guess: string -> Option<string>, path: string)
    : (r: Response)
    ensures r.Served? <==> rootExists && !ContainsStr(StripSlashes(path), "..") && StripSlashes(path) in files
    ensures r.Served? ==> r.rel == StripSlashes(path) && r.contentType == ContentType(guess, r.rel)
    ensures !r.Served? ==> r == Http404
  {
    StrippedHasNoEdgeSlash(path);
    if !rootExists then Http404
    else
      var p := StripSlashes(path);
      if Unsafe(p) then Http404
      else if p !in files then Http404
      else Served(p, ContentType(guess, p))
  }

  /**
   * `serve_spa`: a JSON 404 without a build; 404 for an unsafe path; the
   * named file when the path is non-empty and names one; else index.html,
   * or 404 when there is none.
   */
  function ServeSpa(dirExists: bool, files: set<string>, guess: string -> Option<string>, path: string)
    : (r: Response)
    ensures !dirExists <==> r == JsonNotFound(FrontendMissingText)
    ensures dirExists && ContainsStr(StripSlashes(path), "..") ==> r == Http404
    ensures dirExists && !ContainsStr(StripSlashes(path), "..") ==>
              var p := StripSlashes(path);
              if p != "" && p in files then r == Served(p, ContentType(guess, p))
              else if "index.html" in files then r == Served("index.html", "text/html")
              else r == Http404
  {
    StrippedHasNoEdgeSlash(path);
    if !dirExists then JsonNotFound(FrontendMissingText)
    else
      var p := StripSlashes(path);
      if Unsafe(p) then Http404
      else if p != "" && p in files then Served(p, ContentType(guess, p))
      else if "index.html" in files then Served("index.html", "text/html")
      else Http404
  }

  /** Neither view ever serves a path that climbs out of its directory or is absolute. */
  lemma ServedPathsAreSafe(exists_: bool, files: set<string>, guess: string -> Option<string>, path: string)
    ensures ServeMedia(exists_, files, guess, path).Served? ==>
              var rel := ServeMedia(exists_, files, guess, path).rel;
              !ContainsStr(rel, "..") && (rel == "" || rel[0] != '/') && rel in files
    ensures ServeSpa(exists_, files, guess, path).Served? ==>
              var rel := ServeSpa(exists_, files, guess, path).rel;
              !ContainsStr(rel, "..") && (rel == "" || rel[0] != '/') && rel in files
  {
    StrippedHasNoEdgeSlash(path);
    IndexIsSafe();
  }

  lemma IndexIsSafe()
    ensures !ContainsStr("index.html", "..")
  {
    var s := "index.html";
    forall i | 0 <= i <= |s| - 2
      ensures !OccursAt(s, "..", i)
    {
      assert s[i..i + 2][0] == s[i] && s[i..i + 2][1] == s[i + 1];
      if i == 5 {
        assert s[i + 1] == 'h';
      } else {
        assert s[i] != '.';
      }
    }
  }

  /** A client-side route, such as `/sprints/4/`, names no built file and gets the SPA's index page. */
  lemma SpaRouteFallsBack(files: set<string>, guess: string -> Option<string>, path: string)
    requires "index.html" in files && StripSlashes(path) !in files && !ContainsStr(StripSlashes(path), "..")
    ensures ServeSpa(true, files, guess, path) == Served("index.html", "text/html")
  {
  }
}
