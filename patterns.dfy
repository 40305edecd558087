/**
 * The regular expressions of the modelled code, each written out as a string predicate.
 * Every pattern here ends in `$`, which in Python matches at the end of the subject or
 * just before a final newline; none of the patterns can itself match a newline at its
 * end, so each is stated over `DropFinalNewline(s)`.
 */
module Patterns {
  import opened Text

  /** `re.search(r"[\w]+\.\w+$", name)`: some word character, a dot, and one or more word characters up to the end. */
  predicate SimpleFilename(name: string)
  {
    var t := DropFinalNewline(name);
    exists k :: 1 <= k < |t| - 1 && t[k] == '.' && IsWordChar(t[k - 1]) && AllWordChars(t[k + 1..])
  }

  /** The dot that `SimpleFilename` needs is necessarily the last one. */
  lemma {:induction false} SimpleFilenameAtLastDot(name: string)
    ensures SimpleFilename(name) <==>
      var t := DropFinalNewline(name);
      var k := LastIndexOf(t, '.');
      1 <= k < |t| - 1 && IsWordChar(t[k - 1]) && AllWordChars(t[k + 1..])
  {
    var t := DropFinalNewline(name);
    var k := LastIndexOf(t, '.');
    if 1 <= k < |t| - 1 && IsWordChar(t[k - 1]) && AllWordChars(t[k + 1..]) {
      assert t[k] == '.';
    }
    if SimpleFilename(name) {
      var k' :| 1 <= k' < |t| - 1 && t[k'] == '.' && IsWordChar(t[k' - 1]) && AllWordChars(t[k' + 1..]);
      forall j | k' < j < |t|
        ensures t[j] != '.'
      {
        assert t[k' + 1..][j - k' - 1] == t[j];
      }
    }
  }

  predicate EndsWithRoleDirectory(s: string)
  {
    EndsWith(s, "PreservationMasters") || EndsWith(s, "EditMasters") || EndsWith(s, "ServiceCopies")
  }

  /** `re.search(r"(PreservationMasters|EditMasters|ServiceCopies)/\w+\.json$", path)` */
  predicate JsonInRoleDirectory(path: string)
  {
    var t := DropFinalNewline(path);
    EndsWith(t, ".json") &&
    var stem := t[..|t| - 5];
    exists p :: 0 <= p < |stem| - 1 && stem[p] == '/' && AllWordChars(stem[p + 1..]) && EndsWithRoleDirectory(stem[..p])
  }

  /** The regular expressions of the cleanup and tag-file rule tables. */
  datatype Pattern =
    | ThumbsDb            // [Tt]humbs\.db$
    | DsStore             // \.DS_Store$
    | AppleDouble         // \._.+$
    | IconFile            // (I|i)con(|\r)$
    | EscapedThumbsDb     // [Tt]humbs\\.db$   (raw string with a doubled backslash)
    | EscapedDsStore      // \\.DS_Store$
    | EscapedAppleDouble  // \\._.+$
    | Timecodes           // .*timecodes\.txt$
    | QctoolsReport       // xml\.gz$
    | Subtitles           // .*\.srt$
    | CdCues              // .*\.cue$

  /** No character from `from` on is a newline: what `.+$` or `.*$` needs. */
  predicate NoNewlineFrom(t: string, from: nat)
  {
    forall j :: from <= j < |t| ==> t[j] != '\n'
  }

  /** `bool(re.search(regex, s))` */
  predicate Search(p: Pattern, s: string)
  {
    var t := DropFinalNewline(s);
    match p
    case ThumbsDb => EndsWith(t, "Thumbs.db") || EndsWith(t, "thumbs.db")
    case DsStore => EndsWith(t, ".DS_Store")
    case AppleDouble =>
      exists i :: 0 <= i < |t| - 2 && t[i] == '.' && t[i + 1] == '_' && NoNewlineFrom(t, i + 2)
    case IconFile => EndsWith(t, "Icon") || EndsWith(t, "icon") || EndsWith(t, "Icon\r") || EndsWith(t, "icon\r")
    case EscapedThumbsDb =>
      |t| >= 10 && (t[|t| - 10..|t| - 4] == "Thumbs" || t[|t| - 10..|t| - 4] == "thumbs")
      && t[|t| - 4] == '\\' && t[|t| - 3] != '\n' && t[|t| - 2..] == "db"
    case EscapedDsStore =>
      |t| >= 10 && t[|t| - 10] == '\\' && t[|t| - 9] != '\n' && t[|t| - 8..] == "DS_Store"
    case EscapedAppleDouble =>
      exists i :: 0 <= i < |t| - 3 && t[i] == '\\' && t[i + 1] != '\n' && t[i + 2] == '_' && NoNewlineFrom(t, i + 3)
    case Timecodes => EndsWith(t, "timecodes.txt")
    case QctoolsReport => EndsWith(t, "xml.gz")
    case Subtitles => EndsWith(t, ".srt")
    case CdCues => EndsWith(t, ".cue")
  }

  /** The doubled-backslash patterns demand a literal backslash in the path. */
  lemma EscapedPatternsNeedBackslash(s: string)
    requires '\\' !in s
    ensures !Search(EscapedThumbsDb, s) && !Search(EscapedDsStore, s) && !Search(EscapedAppleDouble, s)
  {
    var t := DropFinalNewline(s);
    assert forall j :: 0 <= j < |t| ==> t[j] in s;
  }

  /** `re.match(r'\d\d\d\d\d\d$', name)`: six digits and nothing else (but a final newline). */
  predicate SixDigitName(name: string)
  {
    var t := DropFinalNewline(name);
    |t| == 6 && forall i :: 0 <= i < 6 ==> IsDigit(t[i])
  }

  predicate IsLowerAlnum(c: char) { 'a' <= c <= 'z' || IsDigit(c) }

  /** `re.match(r'^[a-z0-9]+$', id)` */
  predicate LowerAlnumName(id: string)
  {
    var t := DropFinalNewline(id);
    |t| > 0 && forall i :: 0 <= i < |t| ==> IsLowerAlnum(t[i])
  }
}
