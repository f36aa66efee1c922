/** The `FT_Status` enumeration of the D2XX/MPSSE library and its `__str__`
    rendering (`ctypes_veneer.py`). */
module FtStatus {
  import opened Base

  datatype Status =
    | FT_OK
    | FT_INVALID_HANDLE
    | FT_DEVICE_NOT_FOUND
    | FT_DEVICE_NOT_OPENED
    | FT_IO_ERROR
    | FT_INSUFFICIENT_RESOURCES
    | FT_INVALID_PARAMETER
    | FT_INVALID_BAUD_RATE
    | FT_DEVICE_NOT_OPENED_FOR_ERASE
    | FT_DEVICE_NOT_OPENED_FOR_WRITE
    | FT_FAILED_TO_WRITE_DEVICE
    | FT_EEPROM_READ_FAILED
    | FT_EEPROM_WRITE_FAILED
    | FT_EEPROM_ERASE_FAILED
    | FT_EEPROM_NOT_PRESENT
    | FT_EEPROM_NOT_PROGRAMMED
    | FT_INVALID_ARGS
    | FT_NOT_SUPPORTED
    | FT_OTHER_ERROR

  /** The members in declaration order; the position of a member is its value. */
  const AllStatuses: seq<Status> := [
    FT_OK, FT_INVALID_HANDLE, FT_DEVICE_NOT_FOUND, FT_DEVICE_NOT_OPENED,
    FT_IO_ERROR, FT_INSUFFICIENT_RESOURCES, FT_INVALID_PARAMETER,
    FT_INVALID_BAUD_RATE, FT_DEVICE_NOT_OPENED_FOR_ERASE,
    FT_DEVICE_NOT_OPENED_FOR_WRITE, FT_FAILED_TO_WRITE_DEVICE,
    FT_EEPROM_READ_FAILED, FT_EEPROM_WRITE_FAILED, FT_EEPROM_ERASE_FAILED,
    FT_EEPROM_NOT_PRESENT, FT_EEPROM_NOT_PROGRAMMED, FT_INVALID_ARGS,
    FT_NOT_SUPPORTED, FT_OTHER_ERROR]

  /** The integer value of a member (`IntEnum`). */
  function Code(s: Status): (c: int)
    ensures 0 <= c < |AllStatuses| == 19
    ensures AllStatuses[c] == s
    ensures c == 0 <==> s == FT_OK
  {
    match s
    case FT_OK => 0
    case FT_INVALID_HANDLE => 1
    case FT_DEVICE_NOT_FOUND => 2
    case FT_DEVICE_NOT_OPENED => 3
    case FT_IO_ERROR => 4
    case FT_INSUFFICIENT_RESOURCES => 5
    case FT_INVALID_PARAMETER => 6
    case FT_INVALID_BAUD_RATE => 7
    case FT_DEVICE_NOT_OPENED_FOR_ERASE => 8
    case FT_DEVICE_NOT_OPENED_FOR_WRITE => 9
    case FT_FAILED_TO_WRITE_DEVICE => 10
    case FT_EEPROM_READ_FAILED => 11
    case FT_EEPROM_WRITE_FAILED => 12
    case FT_EEPROM_ERASE_FAILED => 13
    case FT_EEPROM_NOT_PRESENT => 14
    case FT_EEPROM_NOT_PROGRAMMED => 15
    case FT_INVALID_ARGS => 16
    case FT_NOT_SUPPORTED => 17
    case FT_OTHER_ERROR => 18
  }

  /** `FT_Status(code)`: the member with that value, or none (Python raises
      `ValueError` for a value outside the enumeration). */
  function FromCode(c: int): (r: Option<Status>)
    ensures r.Some? <==> 0 <= c <= 18
    ensures r.Some? ==> Code(r.value) == c
  {
    if 0 <= c < |AllStatuses| then
      var s := AllStatuses[c];
      assert Code(s) == c by { CodesDistinct(Code(s), c); }
      Some(s)
    else None
  }

  /** Distinct positions of `AllStatuses` hold distinct members. */
  lemma CodesDistinct(i: int, j: int)
    requires 0 <= i < |AllStatuses| && 0 <= j < |AllStatuses|
    requires AllStatuses[i] == AllStatuses[j]
    ensures i == j
  {
  }

  /** The enumeration holds exactly the values 0..18, and value and member
      determine each other. */
  lemma CodeRoundTrip(s: Status, c: int)
    ensures FromCode(Code(s)) == Some(s)
    ensures FromCode(c).Some? ==> Code(FromCode(c).value) == c
  {
  }

  /** The member's Python name, `self.name`. */
  function Name(s: Status): (n: string)
    ensures |n| > 3 && n[..3] == "FT_"
  {
    match s
    case FT_OK => "FT_OK"
    case FT_INVALID_HANDLE => "FT_INVALID_HANDLE"
    case FT_DEVICE_NOT_FOUND => "FT_DEVICE_NOT_FOUND"
    case FT_DEVICE_NOT_OPENED => "FT_DEVICE_NOT_OPENED"
    case FT_IO_ERROR => "FT_IO_ERROR"
    case FT_INSUFFICIENT_RESOURCES => "FT_INSUFFICIENT_RESOURCES"
    case FT_INVALID_PARAMETER => "FT_INVALID_PARAMETER"
    case FT_INVALID_BAUD_RATE => "FT_INVALID_BAUD_RATE"
    case FT_DEVICE_NOT_OPENED_FOR_ERASE => "FT_DEVICE_NOT_OPENED_FOR_ERASE"
    case FT_DEVICE_NOT_OPENED_FOR_WRITE => "FT_DEVICE_NOT_OPENED_FOR_WRITE"
    case FT_FAILED_TO_WRITE_DEVICE => "FT_FAILED_TO_WRITE_DEVICE"
    case FT_EEPROM_READ_FAILED => "FT_EEPROM_READ_FAILED"
    case FT_EEPROM_WRITE_FAILED => "FT_EEPROM_WRITE_FAILED"
    case FT_EEPROM_ERASE_FAILED => "FT_EEPROM_ERASE_FAILED"
    case FT_EEPROM_NOT_PRESENT => "FT_EEPROM_NOT_PRESENT"
    case FT_EEPROM_NOT_PROGRAMMED => "FT_EEPROM_NOT_PROGRAMMED"
    case FT_INVALID_ARGS => "FT_INVALID_ARGS"
    case FT_NOT_SUPPORTED => "FT_NOT_SUPPORTED"
    case FT_OTHER_ERROR => "FT_OTHER_ERROR"
  }

  // ---------------------------------------------------------------------
  // Character helpers (ASCII subset of Python's str methods)
  // ---------------------------------------------------------------------

  predicate IsUpper(c: char) { 'A' <= c <= 'Z' }
  predicate IsLower(c: char) { 'a' <= c <= 'z' }

  /** Python's notion of a cased character, restricted to ASCII letters. */
  predicate IsCased(c: char) { IsUpper(c) || IsLower(c) }

  function ToUpper(c: char): (u: char)
    ensures IsLower(c) ==> IsUpper(u)
    ensures !IsLower(c) ==> u == c
  {
    if IsLower(c) then (c as int - 32) as char else c
  }

  function ToLower(c: char): (l: char)
    ensures IsUpper(c) ==> IsLower(l)
    ensures !IsUpper(c) ==> l == c
    ensures ToUpper(l) == ToUpper(c)
  {
    if IsUpper(c) then (c as int + 32) as char else c
  }

  /** `s.replace(old, new)` for single characters. */
  function Replace(s: string, from: char, to: char): (r: string)
    ensures |r| == |s|
    ensures forall i :: 0 <= i < |s| ==> r[i] == (if s[i] == from then to else s[i])
  {
    if s == [] then [] else [if s[0] == from then to else s[0]] + Replace(s[1..], from, to)
  }

  /** Python's title-casing of one character, given whether the character
      before it was cased. */
  function TitleChar(c: char, afterCased: bool): (t: char)
    ensures ToUpper(t) == ToUpper(c)
    ensures !IsCased(c) ==> t == c
  {
    if afterCased then ToLower(c) else ToUpper(c)
  }

  /** `s.title()` continued after a character that was (`afterCased`) or was not
      cased. The contract is the position-wise reading of Python's rule: a
      character is lowered when the one before it is cased and raised otherwise. */
  function TitleFrom(s: string, afterCased: bool): (t: string)
    ensures |t| == |s|
    ensures forall i :: 0 <= i < |s| ==>
      t[i] == TitleChar(s[i], if i == 0 then afterCased else IsCased(s[i - 1]))
  {
    if s == [] then []
    else [TitleChar(s[0], afterCased)] + TitleFrom(s[1..], IsCased(s[0]))
  }

  function Title(s: string): (t: string)
  {
    TitleFrom(s, false)
  }

  /** The text of `str(status)` for a name body `w` (the name after `FT_`). */
  function RenderBody(w: string): (r: string)
    ensures |r| == |w|
    ensures '_' !in r
    ensures forall i :: 0 <= i < |r| ==> ToUpper(r[i]) == ToUpper(if w[i] == '_' then ' ' else w[i])
  {
    var spaced := Replace(w, '_', ' ');
    var r := Title(spaced);
    forall i | 0 <= i < |r|
      ensures r[i] != '_'
      ensures ToUpper(r[i]) == ToUpper(if w[i] == '_' then ' ' else w[i])
    {
      var t := TitleChar(spaced[i], if i == 0 then false else IsCased(spaced[i - 1]));
      assert r[i] == t;
      assert spaced[i] == if w[i] == '_' then ' ' else w[i];
    }
    r
  }

  /** `str(status)`: the name without its `FT_` prefix, underscores turned into
      spaces, in title case. */
  function Render(s: Status): (r: string)
    ensures |r| == |Name(s)| - 3
    ensures '_' !in r
  {
    RenderBody(Name(s)[3..])
  }

  /** A member name consists of capital letters and underscores only. */
  predicate UpperSnake(w: string)
  {
    forall i :: 0 <= i < |w| ==> IsUpper(w[i]) || w[i] == '_'
  }

  lemma NameIsUpperSnake(s: Status)
    ensures UpperSnake(Name(s))
  {
    // Checking all nineteen literals in one obligation is too costly for the
    // solver, so the values are split into groups of four.
    var c := Code(s);
    if c < 4 { NamesUpperSnake0(s); }
    else if c < 8 { NamesUpperSnake4(s); }
    else if c < 12 { NamesUpperSnake8(s); }
    else if c < 16 { NamesUpperSnake12(s); }
    else { NamesUpperSnake16(s); }
  }

  lemma NamesUpperSnake0(s: Status)
    requires Code(s) < 4
    ensures UpperSnake(Name(s))
  {
  }

  lemma NamesUpperSnake4(s: Status)
    requires 4 <= Code(s) < 8
    ensures UpperSnake(Name(s))
  {
  }

  lemma NamesUpperSnake8(s: Status)
    requires 8 <= Code(s) < 12
    ensures UpperSnake(Name(s))
  {
  }

  lemma NamesUpperSnake12(s: Status)
    requires 12 <= Code(s) < 16
    ensures UpperSnake(Name(s))
  {
  }

  lemma NamesUpperSnake16(s: Status)
    requires 16 <= Code(s)
    ensures UpperSnake(Name(s))
  {
  }

  /** Inverse of `Render`: capitalise everything, turn spaces back into
      underscores and put the prefix back. */
  function Unrender(r: string): (n: string)
    ensures |n| == |r| + 3
  {
    "FT_" + Replace(UpperAll(r), ' ', '_')
  }

  function UpperAll(s: string): (u: string)
    ensures |u| == |s|
    ensures forall i :: 0 <= i < |s| ==> u[i] == ToUpper(s[i])
  {
    if s == [] then [] else [ToUpper(s[0])] + UpperAll(s[1..])
  }

  /** On a body of capitals and underscores, upper-casing the rendered text and
      turning its spaces back into underscores gives the body back. */
  lemma RenderBodyRoundTrip(w: string)
    requires UpperSnake(w)
    ensures Replace(UpperAll(RenderBody(w)), ' ', '_') == w
  {
    var r := RenderBody(w);
    var back := Replace(UpperAll(r), ' ', '_');
    forall i | 0 <= i < |w| ensures back[i] == w[i] {
      assert ToUpper(r[i]) == ToUpper(if w[i] == '_' then ' ' else w[i]);
    }
  }

  /** Rendering loses nothing: the name is recovered from the message, so two
      distinct statuses never produce the same `FtdiError` text. */
  lemma RenderRoundTrip(s: Status)
    ensures Unrender(Render(s)) == Name(s)
  {
    var n := Name(s);
    NameIsUpperSnake(s);
    assert UpperSnake(n[3..]);
    RenderBodyRoundTrip(n[3..]);
    assert n == n[..3] + n[3..];
  }

  lemma RenderInjective(s: Status, t: Status)
    ensures Render(s) == Render(t) ==> s == t
  {
    RenderRoundTrip(s);
    RenderRoundTrip(t);
    if Render(s) == Render(t) {
      NamesDistinct(s, t);
    }
  }

  lemma NamesDistinct(s: Status, t: Status)
    requires Name(s) == Name(t)
    ensures s == t
  {
  }

  /** The worked example of the rendering. */
  lemma RenderDeviceNotFound()
    ensures Render(FT_DEVICE_NOT_FOUND) == "Device Not Found"
  {
    SpacedNotFound(Name(FT_DEVICE_NOT_FOUND)[3..]);
    TitleNotFound(Replace(Name(FT_DEVICE_NOT_FOUND)[3..], '_', ' '));
  }

  lemma SpacedNotFound(w: string)
    requires w == "DEVICE_NOT_FOUND"
    ensures Replace(w, '_', ' ') == "DEVICE NOT FOUND"
  {
    var r := Replace(w, '_', ' ');
    forall i | 0 <= i < 16 ensures r[i] == "DEVICE NOT FOUND"[i] { }
  }

  lemma TitleNotFound(s: string)
    requires s == "DEVICE NOT FOUND"
    ensures Title(s) == "Device Not Found"
  {
    var t := Title(s);
    forall i | 0 <= i < 16 ensures t[i] == "Device Not Found"[i] {
      assert t[i] == TitleChar(s[i], if i == 0 then false else IsCased(s[i - 1]));
    }
  }
}
