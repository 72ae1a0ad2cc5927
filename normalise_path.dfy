/** utils/normalise_path.go: make a route path start with "/". */
module NormalisePath {

  import opened Strings

  function NormalisePath(path: string): (r: string)
    ensures HasPrefix(r, "/")
    ensures HasPrefix(path, "/") ==> r == path
    ensures !HasPrefix(path, "/") ==> r[0] == '/' && r[1..] == path
    ensures |r| == |path| || |r| == |path| + 1
  {
    if !HasPrefix(path, "/") then "/" + path else path
  }

  lemma NormalisePathIdempotent(path: string)
    ensures NormalisePath(NormalisePath(path)) == NormalisePath(path)
  {
  }

  /** A path that does not start with "/" gets exactly one in front. */
  lemma SlashAdded(path: string)
    requires path == [] || path[0] != '/'
    ensures NormalisePath(path) == "/" + path
  {
    assert !HasPrefix(path, "/") by {
      if path != [] { assert path[..1][0] == path[0]; }
    }
  }

  /** The cases of utils/normalise_path_test.go. */
  lemma NormalisePathExamples()
    ensures NormalisePath("") == "/"
    ensures NormalisePath("/api/v1") == "/api/v1"
    ensures NormalisePath("api/v1") == "/api/v1"
    ensures NormalisePath("a") == "/a"
    ensures NormalisePath("api-v1/users/{id}") == "/api-v1/users/{id}"
  {
    assert "/api/v1"[..1] == "/";
    SlashAdded("");
    SlashAdded("api/v1");
    SlashAdded("a");
    SlashAdded("api-v1/users/{id}");
  }
}
