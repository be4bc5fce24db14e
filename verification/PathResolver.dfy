// internal/pathresolver/pathresolver.go: home paths as portable tokens.
module PathResolver {
  import opened Strings

  // The computer a document is on: whether it runs Windows, and the home directory.
  datatype Host = Host(windows: bool, home: string)

  const HOME_TOKEN := "${HOME}"

  function Replaced(s: string, from: char, to: char): (out: string)
    ensures |out| == |s|
    ensures forall i :: 0 <= i < |s| ==> out[i] == if s[i] == from then to else s[i]
  {
    seq(|s|, i requires 0 <= i < |s| => if s[i] == from then to else s[i])
  }

  function Slashed(s: string): (out: string)
    ensures |out| == |s|
  {
    Replaced(s, '\\', '/')
  }

  function Backslashed(s: string): (out: string)
    ensures |out| == |s|
  {
    Replaced(s, '/', '\\')
  }

  function Lower(c: char): char {
    if 'A' <= c <= 'Z' then (c as int + 32) as char else c
  }

  function LowerCase(s: string): (out: string)
    ensures |out| == |s|
    ensures forall i :: 0 <= i < |s| ==> out[i] == Lower(s[i])
  {
    seq(|s|, i requires 0 <= i < |s| => Lower(s[i]))
  }

  predicate IsLetter(c: char) {
    'A' <= c <= 'Z' || 'a' <= c <= 'z'
  }

  predicate IsTargetAbsolute(s: string, windows: bool) {
    if windows then |s| >= 3 && IsLetter(s[0]) && s[1] == ':' && s[2] == '/'
    else s != "" && s[0] == '/'
  }

  predicate HasEmptySegment(s: string) {
    exists i :: 0 < i < |s| && s[i] == '/' && s[i - 1] == '/'
  }

  // The segment that starts at i is not empty, "." or "..".
  predicate ProperSegmentAt(s: string, i: nat) {
    && i < |s| && s[i] != '/'
    && !(s[i] == '.' && (i + 1 == |s| || s[i + 1] == '/'))
    && !(s[i] == '.' && i + 1 < |s| && s[i + 1] == '.' && (i + 2 == |s| || s[i + 2] == '/'))
  }

  // The absolute paths that path.Clean leaves alone.
  predicate IsClean(s: string) {
    s == "/" || forall i :: 0 <= i < |s| && s[i] == '/' ==> ProperSegmentAt(s, i + 1)
  }

  predicate IsNormal(s: string, windows: bool) {
    !HasEmptySegment(s) && IsTargetAbsolute(s, windows) && IsClean(s)
  }

  // normalizePortablePath; a blank path is refused as not absolute.
  function Normalize(value: string, windows: bool): Option<string> {
    if IsNormal(Slashed(value), windows) then Some(Slashed(value)) else None
  }

  function Comparable(s: string, windows: bool): (out: string)
    ensures |out| == |s|
  {
    if windows then LowerCase(s) else s
  }

  function TokenizeHome(value: string, host: Host): Option<string> {
    match (Normalize(value, host.windows), Normalize(host.home, host.windows))
    case (Some(path), Some(home)) =>
      var pathForCompare, homeForCompare := Comparable(path, host.windows), Comparable(home, host.windows);
      if pathForCompare == homeForCompare then Some(HOME_TOKEN)
      else if HasPrefix(pathForCompare, homeForCompare + "/") then Some(HOME_TOKEN + path[|home|..])
      else None
    case _ => None
  }

  predicate IsToken(value: string) {
    value == HOME_TOKEN || HasPrefix(value, HOME_TOKEN + "/") || HasPrefix(value, HOME_TOKEN + "\\")
  }

  function Native(path: string, windows: bool): string {
    if windows then Backslashed(path) else path
  }

  // None stands for an error.
  function ExpandHomeToken(value: string, host: Host): Option<string> {
    if !IsToken(value) then Some(value)
    else match Normalize(host.home, host.windows)
      case None => None
      case Some(home) =>
        match Normalize(home + Slashed(value[|HOME_TOKEN|..]), host.windows)
        case None => None
        case Some(expanded) => Some(Native(expanded, host.windows))
  }

  predicate LooksAbsolute(value: string, windows: bool) {
    var normalized := Slashed(value);
    if windows then HasPrefix(normalized, "//") || (|normalized| >= 3 && normalized[1] == ':' && normalized[2] == '/')
    else HasPrefix(normalized, "/")
  }

  // ---- Normal paths by their segments ----

  lemma NoSegment(s: string)
    ensures Split(s, '/')[0] == "" <==> s == "" || s[0] == '/'
  {
  }

  lemma Consed(c: char, tail: string, text: string)
    requires text != ""
    ensures [c] + tail == text <==> text[0] == c && text[1..] == tail
  {
    assert text == [text[0]] + text[1..];
    assert ([c] + tail)[1..] == tail;
  }

  lemma FirstSegment(s: string)
    ensures ProperSegmentAt(s, 0) <==> IsProper(Split(s, '/')[0])
  {
    if s != "" && s[0] != '/' {
      var head, tail := Split(s, '/')[0], Split(s[1..], '/')[0];
      assert head == [s[0]] + tail;
      Consed(s[0], tail, ".");
      Consed(s[0], tail, "..");
      assert "."[1..] == "" && ".."[1..] == ".";
      assert head == "." <==> s[0] == '.' && tail == "";
      assert head == ".." <==> s[0] == '.' && tail == ".";
      NoSegment(s[1..]);
      if |s| > 1 && s[1] != '/' {
        assert s[1..][1..] == s[2..] && tail == [s[1]] + Split(s[2..], '/')[0];
        NoSegment(s[2..]);
        Consed(s[1], Split(s[2..], '/')[0], ".");
        assert tail == "." <==> s[1] == '.' && Split(s[2..], '/')[0] == "";
      }
    }
  }

  predicate ProperAfterSlashes(s: string) {
    forall i :: 0 <= i < |s| && s[i] == '/' ==> ProperSegmentAt(s, i + 1)
  }

  lemma AfterSlashesShift(s: string)
    requires s != ""
    ensures ProperAfterSlashes(s) <==> (s[0] == '/' ==> ProperSegmentAt(s[1..], 0)) && ProperAfterSlashes(s[1..])
  {
    var rest := s[1..];
    assert forall i: nat :: ProperSegmentAt(s, i + 1) <==> ProperSegmentAt(rest, i);
    if (s[0] == '/' ==> ProperSegmentAt(rest, 0)) && ProperAfterSlashes(rest) {
      forall i | 0 <= i < |s| && s[i] == '/'
        ensures ProperSegmentAt(s, i + 1)
      {
        if i > 0 {
          assert rest[i - 1] == '/' && ProperSegmentAt(rest, i);
        }
      }
    }
    if ProperAfterSlashes(s) {
      forall i | 0 <= i < |rest| && rest[i] == '/'
        ensures ProperSegmentAt(rest, i + 1)
      {
        assert s[i + 1] == '/' && ProperSegmentAt(s, i + 2);
      }
    }
  }

  lemma TailOfAll(parts: seq<string>)
    requires parts != []
    ensures AllProper(parts) <==> IsProper(parts[0]) && AllProper(parts[1..])
  {
    assert forall k :: 0 <= k < |parts| - 1 ==> parts[1..][k] == parts[k + 1];
    assert forall k :: 1 <= k < |parts| ==> parts[k] == parts[1..][k - 1];
  }

  lemma {:induction false} LaterSegments(s: string)
    ensures ProperAfterSlashes(s) <==> AllProper(Split(s, '/')[1..])
  {
    if s != "" {
      var parts := Split(s[1..], '/');
      AfterSlashesShift(s);
      LaterSegments(s[1..]);
      FirstSegment(s[1..]);
      TailOfAll(parts);
      if s[0] == '/' {
        assert Split(s, '/')[1..] == parts;
      } else {
        assert Split(s, '/')[1..] == parts[1..];
      }
    }
  }

  lemma SegmentsAfterSlash(s: string)
    requires s != "" && s[0] == '/'
    ensures ProperAfterSlashes(s) <==> AllProper(Split(s[1..], '/'))
  {
    LaterSegments(s);
    assert Split(s, '/')[1..] == Split(s[1..], '/');
  }

  // The normal paths: the root of a POSIX computer, or a root followed by segments of
  // which none is empty, "." or "..".
  lemma NormalExactly(s: string, windows: bool)
    ensures IsNormal(s, windows) <==>
              if windows then |s| >= 3 && IsLetter(s[0]) && s[1] == ':' && s[2] == '/' && AllProper(Split(s[3..], '/'))
              else s == "/" || (s != "" && s[0] == '/' && AllProper(Split(s[1..], '/')))
  {
    if IsTargetAbsolute(s, windows) {
      var path := if windows then s[2..] else s;
      SegmentsAfterSlash(path);
      assert windows ==> path[1..] == s[3..];
      CleanFrom(s, path, windows);
      if IsClean(s) {
        CleanHasNoEmptySegment(s);
      }
    }
  }

  lemma CleanHasNoEmptySegment(s: string)
    requires IsClean(s)
    ensures !HasEmptySegment(s)
  {
    forall i | 0 < i < |s| && s[i - 1] == '/'
      ensures s[i] != '/'
    {
      assert s != "/" ==> ProperSegmentAt(s, i - 1 + 1);
    }
  }

  lemma CleanFrom(s: string, path: string, windows: bool)
    requires IsTargetAbsolute(s, windows) && path == if windows then s[2..] else s
    ensures IsClean(s) && s != "/" <==> ProperAfterSlashes(path)
  {
    var cut := if windows then 2 else 0;
    assert forall i: nat :: ProperSegmentAt(s, i + cut) <==> ProperSegmentAt(path, i);
    assert forall i :: 0 <= i < |path| ==> path[i] == s[i + cut];
    if IsClean(s) && s != "/" {
      forall i | 0 <= i < |path| && path[i] == '/'
        ensures ProperSegmentAt(path, i + 1)
      {
        assert s[i + cut] == '/' && ProperSegmentAt(s, i + cut + 1);
      }
    }
    if ProperAfterSlashes(path) {
      assert path[0] == '/' && ProperSegmentAt(path, 1);
      forall i | 0 <= i < |s| && s[i] == '/'
        ensures ProperSegmentAt(s, i + 1)
      {
        assert path[i - cut] == '/' && ProperSegmentAt(path, i - cut + 1);
      }
    }
  }

  // The values that look absolute: on Windows after two slashes or a drive, on a POSIX
  // computer after one, and a backslash counts as a slash.
  lemma LooksAbsoluteExactly(value: string, windows: bool)
    ensures LooksAbsolute(value, windows) <==>
              if windows
              then |value| >= 2 && ((value[0] in "/\\" && value[1] in "/\\")
                                    || (|value| > 2 && value[1] == ':' && value[2] in "/\\"))
              else |value| >= 1 && value[0] in "/\\"
  {
    var normalized := Slashed(value);
    assert "//"[0] == '/' && "//"[1] == '/';
    var slashes := "/\\";
    assert slashes[0] == '/' && slashes[1] == '\\';
    assert forall i :: 0 <= i < |value| ==> (normalized[i] == '/' <==> value[i] in slashes);
    if |value| >= 2 && normalized[0] == '/' && normalized[1] == '/' {
      assert normalized[..2] == "//";
    }
  }

  // ---- Tokens and paths ----

  predicate Below(path: string, home: string, windows: bool) {
    || Comparable(path, windows) == Comparable(home, windows)
    || HasPrefix(Comparable(path, windows), Comparable(home, windows) + "/")
  }

  // The same letter, in upper or in lower case.
  predicate SameLetter(left: char, right: char) {
    || left == right
    || ('A' <= left <= 'Z' && right as int == left as int + 32)
    || ('A' <= right <= 'Z' && left as int == right as int + 32)
  }

  // Paths are compared as they are, and on Windows without regard to letter case.
  lemma ComparesExactly(left: string, right: string, windows: bool)
    ensures Comparable(left, windows) == Comparable(right, windows) <==>
              if windows then |left| == |right| && forall i :: 0 <= i < |left| ==> SameLetter(left[i], right[i])
              else left == right
  {
    if windows {
      if LowerCase(left) == LowerCase(right) {
        forall i | 0 <= i < |left|
          ensures SameLetter(left[i], right[i])
        {
          assert LowerCase(left)[i] == LowerCase(right)[i];
        }
      }
      if |left| == |right| && forall i :: 0 <= i < |left| ==> SameLetter(left[i], right[i]) {
        forall i | 0 <= i < |left|
          ensures LowerCase(left)[i] == LowerCase(right)[i]
        {
          assert SameLetter(left[i], right[i]);
        }
        assert LowerCase(left) == LowerCase(right);
      }
    }
  }

  lemma BelowSplits(path: string, home: string, windows: bool)
    requires Below(path, home, windows)
    ensures |home| <= |path| && (|path| == |home| || path[|home|] == '/')
    ensures Comparable(home + path[|home|..], windows) == Comparable(path, windows)
  {
    var p, h := Comparable(path, windows), Comparable(home, windows);
    if p != h {
      assert p[|h|] == '/' && p[..|h|] == h;
    }
    var spelled := home + path[|home|..];
    forall i | 0 <= i < |path|
      ensures Comparable(spelled, windows)[i] == p[i]
    {
      if i < |h| {
        assert p[i] == h[i];
      }
    }
  }

  lemma BelowJoins(home: string, suffix: string, windows: bool)
    requires suffix == "" || suffix[0] == '/'
    ensures Below(home + suffix, home, windows) && (home + suffix)[|home|..] == suffix
  {
    var p := Comparable(home + suffix, windows);
    assert p[..|home|] == Comparable(home, windows);
    if suffix == "" {
      assert home + suffix == home;
    } else {
      assert p[|home|] == '/';
    }
  }

  lemma TokenizeIs(value: string, host: Host)
    ensures var path, home := Slashed(value), Slashed(host.home);
            if IsNormal(path, host.windows) && IsNormal(home, host.windows) && Below(path, home, host.windows)
            then |home| <= |path| && TokenizeHome(value, host) == Some(HOME_TOKEN + path[|home|..])
            else TokenizeHome(value, host) == None
  {
    var path, home := Slashed(value), Slashed(host.home);
    if Comparable(path, host.windows) == Comparable(home, host.windows) {
      assert |path| == |home|;
      assert HOME_TOKEN + path[|home|..] == HOME_TOKEN;
    }
  }

  // An absolute path that is normal and lies at or under the home directory.
  predicate UnderHome(value: string, host: Host) {
    && IsNormal(Slashed(value), host.windows) && IsNormal(Slashed(host.home), host.windows)
    && Below(Slashed(value), Slashed(host.home), host.windows)
  }

  // Exactly these are tokenized, and the token keeps what follows the home directory.
  lemma TokenizesExactly(value: string, host: Host)
    ensures TokenizeHome(value, host).Some? <==> UnderHome(value, host)
    ensures UnderHome(value, host) ==>
              |host.home| <= |value| && TokenizeHome(value, host) == Some("${HOME}" + Slashed(value)[|host.home|..])
  {
    TokenizeIs(value, host);
  }

  // A token that cannot be expanded: the home directory, or it with the rest of the
  // token, is not a normal path.
  predicate IsBroken(value: string, host: Host) {
    IsToken(value) &&
    !(IsNormal(Slashed(host.home), host.windows)
      && IsNormal(Slashed(host.home) + Slashed(value)[|HOME_TOKEN|..], host.windows))
  }

  // Exactly these fail; any other token is expanded to the home directory and what
  // follows it, and any other value stays.
  lemma ExpandsExactly(value: string, host: Host)
    ensures ExpandHomeToken(value, host).None? <==> IsBroken(value, host)
    ensures !IsBroken(value, host) ==>
              ExpandHomeToken(value, host)
              == Some(if !IsToken(value) then value
                      else Native(Slashed(host.home) + Slashed(value)[|HOME_TOKEN|..], host.windows))
  {
    if IsToken(value) {
      var suffix := value[|HOME_TOKEN|..];
      assert value == HOME_TOKEN + suffix;
      ExpandIs(suffix, host);
      assert Slashed(value)[|HOME_TOKEN|..] == Slashed(suffix);
    }
  }

  // Only absolute paths are tokenized, and a token never looks absolute.
  lemma TokensAreNotPaths(value: string, host: Host)
    ensures TokenizeHome(value, host).Some? ==>
              LooksAbsolute(value, host.windows) && IsToken(TokenizeHome(value, host).value)
    ensures IsToken(value) ==> !LooksAbsolute(value, host.windows) && TokenizeHome(value, host) == None
  {
    if IsToken(value) {
      assert value[0] == '$' && value[1] == '{';
      assert Slashed(value)[0] == '$' && Slashed(value)[1] == '{';
    }
    if TokenizeHome(value, host).Some? {
      TokenizeIs(value, host);
      BelowSplits(Slashed(value), Slashed(host.home), host.windows);
    }
  }

  // Letter case does not matter for being a normal path.
  lemma NormalUpToCase(left: string, right: string, windows: bool)
    requires IsNormal(left, windows) && Comparable(left, windows) == Comparable(right, windows)
    ensures IsNormal(right, windows)
  {
    if windows {
      assert |left| == |right|;
      forall i | 0 <= i < |right|
        ensures Lower(left[i]) == Lower(right[i])
      {
        assert LowerCase(left)[i] == LowerCase(right)[i];
      }
      forall i | 0 <= i < |right| && right[i] == '/'
        ensures left[i] == '/' && ProperSegmentAt(right, i + 1)
      {
        assert ProperSegmentAt(left, i + 1);
      }
    }
  }

  lemma SlashedParts(left: string, right: string, windows: bool)
    ensures Slashed(Slashed(left) + Slashed(right)) == Slashed(left) + Slashed(right) == Slashed(left + right)
    ensures Slashed(Native(Slashed(left), windows)) == Slashed(left)
  {
  }

  lemma ExpandIs(suffix: string, host: Host)
    requires IsToken(HOME_TOKEN + suffix)
    ensures var path := Slashed(host.home) + Slashed(suffix);
            ExpandHomeToken(HOME_TOKEN + suffix, host)
            == if IsNormal(Slashed(host.home), host.windows) && IsNormal(path, host.windows)
                then Some(Native(path, host.windows)) else None
  {
    assert (HOME_TOKEN + suffix)[|HOME_TOKEN|..] == suffix;
    SlashedParts(host.home, suffix, host.windows);
  }

  // Expanding the token of a path spells the home directory as this computer
  // does and keeps the rest of the path.
  lemma TokenizedExpands(value: string, host: Host)
    requires TokenizeHome(value, host).Some?
    ensures |host.home| <= |value|
    ensures ExpandHomeToken(TokenizeHome(value, host).value, host)
         == Some(Native(Slashed(host.home) + Slashed(value)[|host.home|..], host.windows))
  {
    var path, home := Slashed(value), Slashed(host.home);
    TokenizeIs(value, host);
    TokensAreNotPaths(value, host);
    BelowSplits(path, home, host.windows);
    var suffix := path[|home|..];
    assert Slashed(suffix) == suffix;
    NormalUpToCase(path, home + suffix, host.windows);
    ExpandIs(suffix, host);
  }

  // Tokenizing an expanded token gives the token back, with slashes.
  lemma ExpandedTokenizes(token: string, host: Host)
    requires IsToken(token) && ExpandHomeToken(token, host).Some?
    ensures TokenizeHome(ExpandHomeToken(token, host).value, host) == Some(Slashed(token))
  {
    var suffix := token[|HOME_TOKEN|..];
    assert token == HOME_TOKEN + suffix;
    assert suffix == "" || Slashed(suffix)[0] == '/';
    ExpandIs(suffix, host);
    SlashedParts(host.home, suffix, host.windows);
    SlashedParts(host.home + suffix, "", host.windows);
    BelowJoins(Slashed(host.home), Slashed(suffix), host.windows);
    TokenizeIs(ExpandHomeToken(token, host).value, host);
    SlashedParts(HOME_TOKEN, suffix, host.windows);
    assert Slashed(HOME_TOKEN) == HOME_TOKEN;
  }

  // A path under the home directory that is written the way this computer writes it.
  predicate SpelledNatively(value: string, host: Host) {
    if host.windows then '/' !in value && HasPrefix(value, Backslashed(host.home)) else '\\' !in value
  }

  lemma SpelledOnWindows(value: string, home: string)
    requires |home| <= |value|
    ensures Backslashed(Slashed(home) + Slashed(value)[|home|..]) == value
            <==> '/' !in value && HasPrefix(value, Backslashed(home))
  {
    var back := Backslashed(Slashed(home) + Slashed(value)[|home|..]);
    assert back == Backslashed(home) + Backslashed(value[|home|..]);
    assert forall i :: 0 <= i < |back| ==> back[i] != '/';
    assert value == value[..|home|] + value[|home|..];
    if '/' !in value {
      assert Backslashed(value[|home|..]) == value[|home|..];
    }
  }

  lemma SpelledOnPosix(value: string)
    ensures Slashed(value) == value <==> '\\' !in value
  {
    if i :| 0 <= i < |value| && value[i] == '\\' {
      assert Slashed(value)[i] == '/';
    }
  }

  // A tokenized path comes back unchanged exactly when it was spelled natively.
  lemma RoundTripExactly(value: string, host: Host)
    requires TokenizeHome(value, host).Some?
    ensures ExpandHomeToken(TokenizeHome(value, host).value, host) == Some(value) <==> SpelledNatively(value, host)
  {
    TokenizedExpands(value, host);
    if host.windows {
      SpelledOnWindows(value, host.home);
    } else {
      TokenizeIs(value, host);
      BelowSplits(Slashed(value), Slashed(host.home), false);
      SpelledOnPosix(value);
    }
  }
}
