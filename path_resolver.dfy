/**
 * `PathResolver.resolve` (atlas.py:246-287): the translation of the path a
 * plan names into a location on disk. A first segment that names a known
 * folder, in any case and with `\` or `/` as the separator, stands for that
 * folder.
 *
 * The folders themselves, `~` expansion and `pathlib` joining belong to the
 * operating system: a location is kept as the base it starts from and the
 * text appended to it. Whether a text is an absolute path is the parameter
 * `isAbsolute`, since that depends on the platform.
 */
module PathResolver {
  import opened Options
  import opened Text

  /** The folders detected at start-up: DESKTOP_PATH, USER_HOME,
      DOCUMENTS_PATH and DOWNLOADS_PATH. */
  datatype Folder = Desktop | UserHome | Documents | Downloads

  datatype Location =
    | Workspace                               // WORKSPACE_DIR
    | Expanded(path: string)                  // os.path.expanduser(path)
    | AsGiven(path: string)                   // an absolute path, unchanged
    | UnderAlias(base: Folder, rest: string)  // base / rest, or base when rest is empty
    | InWorkspace(path: string)               // WORKSPACE_DIR / path

  /** The `ALIASES` table, English and Polish names. */
  function Alias(name: string): (r: Option<Folder>)
    ensures r.Some? ==> Lower(name) == name && name != []
  {
    if name == "desktop" || name == "pulpit" then Some(Desktop)
    else if name == "home" then Some(UserHome)
    else if name == "documents" || name == "dokumenty" then Some(Documents)
    else if name == "downloads" || name == "pobrane" then Some(Downloads)
    else None
  }

  /** The path with `\` written as `/`. */
  function Normalised(s: string): string {
    ReplaceChar(s, '\\', '/')
  }

  /** The first segment of a normalised path. */
  function FirstSegment(n: string): string {
    Split(n, '/')[0]
  }

  function Resolve(pathStr: string, isAbsolute: string -> bool): (r: Location)
    ensures r.Workspace? <==> pathStr == []
    ensures r.Expanded? <==> pathStr != [] && Strip(pathStr) != [] && Strip(pathStr)[0] == '~'
    ensures r.AsGiven? <==>
      pathStr != [] && !(Strip(pathStr) != [] && Strip(pathStr)[0] == '~') && isAbsolute(Strip(pathStr))
    ensures r.Expanded? || r.AsGiven? || r.InWorkspace? ==> r.path == Strip(pathStr)
    ensures r.UnderAlias? ==>
      var n := Normalised(Strip(pathStr));
      && Alias(Lower(FirstSegment(n))) == Some(r.base)
      && '\\' !in r.rest
      && (n == FirstSegment(n) + "/" + r.rest || (n == FirstSegment(n) && r.rest == []))
    ensures r.InWorkspace? ==> Alias(Lower(FirstSegment(Normalised(Strip(pathStr))))).None?
  {
    if pathStr == [] then Workspace
    else
      var s := Strip(pathStr);
      if s != [] && s[0] == '~' then Expanded(s)
      else if isAbsolute(s) then AsGiven(s)
      else
        var n := Normalised(s);
        var parts := Split(n, '/');
        match Alias(Lower(parts[0]))
        case Some(f) =>
          var rest := Join("/", parts[1..]);
          RestOfSplit(n, parts);
          UnderAlias(f, rest)
        case None => InWorkspace(s)
  }

  /** A text is its first segment followed by the rest of its segments. */
  lemma RestOfSplit(n: string, parts: seq<string>)
    requires parts == Split(n, '/')
    ensures var rest := Join("/", parts[1..]);
      && ('\\' !in n ==> '\\' !in rest)
      && (n == parts[0] + "/" + rest || (n == parts[0] && rest == []))
  {
    JoinSplit(n, '/');
    if |parts| == 1 {
      assert parts[1..] == [];
    } else {
      assert Join("/", parts) == parts[0] + "/" + Join("/", parts[1..]);
    }
  }

  /** Conversely, a relative path whose first segment names a folder, in any
      case, resolves to that folder with the rest of the path, whichever
      separator the path uses. */
  lemma {:induction false} ResolveAlias(first: string, rest: string, isAbsolute: string -> bool)
    requires Alias(Lower(first)).Some?
    requires '/' !in first && '\\' !in first && '\\' !in rest
    requires first[0] != '~' && !IsSpace(first[0])
    requires rest == [] || !IsSpace(rest[|rest| - 1])
    requires !isAbsolute(first + "/" + rest)
    ensures Resolve(first + "/" + rest, isAbsolute) == UnderAlias(Alias(Lower(first)).value, rest)
  {
    var s := first + "/" + rest;
    assert s[0] == first[0];
    StripTrimmed(s);
    assert Normalised(s) == s by {
      assert forall k :: 0 <= k < |s| ==> s[k] != '\\';
    }
    SplitAfterFirst(first, rest, '/');
    var parts := Split(s, '/');
    assert parts == [first] + Split(rest, '/');
    assert parts[1..] == Split(rest, '/');
    JoinSplit(rest, '/');
  }

  /** The same path written with Windows separators resolves alike. */
  lemma BackslashAlias(rest: string, isAbsolute: string -> bool)
    requires '\\' !in rest && '/' !in rest
    requires rest == [] || !IsSpace(rest[|rest| - 1])
    requires !isAbsolute("Desktop\\" + rest)
    ensures Resolve("Desktop\\" + rest, isAbsolute) == UnderAlias(Desktop, rest)
  {
    var s := "Desktop\\" + rest;
    assert s[0] == 'D';
    StripTrimmed(s);
    var n := Normalised(s);
    assert n == "Desktop" + "/" + rest;
    SplitAfterFirst("Desktop", rest, '/');
    assert Split(n, '/')[1..] == Split(rest, '/');
    JoinSplit(rest, '/');
    DesktopLowered();
  }

  lemma DesktopLowered()
    ensures Lower("Desktop") == "desktop"
  {
    var l := Lower("Desktop");
    assert l[0] == LowerChar('D') == 'd';
    assert l[1] == 'e' && l[2] == 's' && l[3] == 'k' && l[4] == 't' && l[5] == 'o' && l[6] == 'p';
  }
}
