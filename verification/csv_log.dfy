/**
 * The chunked CSV log of data.py (`ModbusData`): each reading becomes a row
 * `[time, int, float]` in an in-memory buffer, and the buffer is handed to the CSV writer
 * whenever it reaches 500 rows; finalisation writes what is left and closes the file.
 *
 * The file is modelled by the sequence of rows handed to the writer; how the writer renders
 * a row as text is not modelled.
 */
module CsvLog {
  import opened Common

  /** The buffer is written out as soon as it holds this many rows. */
  const FlushThreshold: nat := 500

  type Hour = h: int | 0 <= h < 24
  type Minute = m: int | 0 <= m < 60
  type Second = s: int | 0 <= s < 60

  /** The fields of a `datetime` that the row's time column shows. */
  datatype TimeOfDay = TimeOfDay(hour: Hour, minute: Minute, second: Second)

  /** One CSV row: the formatted time, the UINT32 reading and the FLOAT32 reading. */
  datatype Row = Row(time: string, intData: int, floatData: real)

  function DigitChar(d: int): char
    requires 0 <= d < 10
  {
    ('0' as int + d) as char
  }

  predicate IsDigit(c: char) {
    '0' <= c <= '9'
  }

  function DigitValue(c: char): int
    requires IsDigit(c)
  {
    c as int - '0' as int
  }

  /** A zero-padded two-digit decimal field, as `%H`, `%M` and `%S` print it. */
  function TwoDigits(n: int): string
    requires 0 <= n < 100
  {
    [DigitChar(n / 10), DigitChar(n % 10)]
  }

  /** `time.strftime("%H:%M:%S")` */
  function FormatHms(t: TimeOfDay): (s: string)
    ensures |s| == 8 && s[2] == ':' && s[5] == ':'
  {
    TwoDigits(t.hour) + ":" + TwoDigits(t.minute) + ":" + TwoDigits(t.second)
  }

  /** Reading a two-digit field back. */
  function ParseTwoDigits(s: string): Option<int>
    requires |s| == 2
  {
    if IsDigit(s[0]) && IsDigit(s[1]) then Some(10 * DigitValue(s[0]) + DigitValue(s[1])) else None
  }

  /** The inverse of `FormatHms`: `None` for any string that is not `HH:MM:SS` with fields in range. */
  function ParseHms(s: string): Option<TimeOfDay> {
    if |s| != 8 || s[2] != ':' || s[5] != ':' then None
    else
      match (ParseTwoDigits(s[0..2]), ParseTwoDigits(s[3..5]), ParseTwoDigits(s[6..8]))
      case (Some(h), Some(m), Some(sec)) =>
        if 0 <= h < 24 && 0 <= m < 60 && 0 <= sec < 60 then Some(TimeOfDay(h, m, sec)) else None
      case _ => None
  }

  lemma ParseTwoDigitsOf(n: int)
    requires 0 <= n < 100
    ensures ParseTwoDigits(TwoDigits(n)) == Some(n)
  {
  }

  lemma TwoDigitsOf(s: string)
    requires |s| == 2 && ParseTwoDigits(s).Some?
    ensures 0 <= ParseTwoDigits(s).value < 100 && TwoDigits(ParseTwoDigits(s).value) == s
  {
    var n := ParseTwoDigits(s).value;
    assert n / 10 == DigitValue(s[0]) && n % 10 == DigitValue(s[1]);
  }

  /** Every time of day reads back from its formatted string. */
  lemma ParseFormat(t: TimeOfDay)
    ensures ParseHms(FormatHms(t)) == Some(t)
  {
    var s := FormatHms(t);
    assert s[0..2] == TwoDigits(t.hour) && s[3..5] == TwoDigits(t.minute) && s[6..8] == TwoDigits(t.second);
    ParseTwoDigitsOf(t.hour);
    ParseTwoDigitsOf(t.minute);
    ParseTwoDigitsOf(t.second);
  }

  /** A string that parses is exactly the formatting of what it parses to. */
  lemma FormatParse(s: string)
    requires ParseHms(s).Some?
    ensures FormatHms(ParseHms(s).value) == s
  {
    TwoDigitsOf(s[0..2]);
    TwoDigitsOf(s[3..5]);
    TwoDigitsOf(s[6..8]);
    assert s == s[0..2] + ":" + s[3..5] + ":" + s[6..8];
  }

  /** Distinct times of day never share a time column. */
  lemma FormatInjective(t: TimeOfDay, u: TimeOfDay)
    requires FormatHms(t) == FormatHms(u)
    ensures t == u
  {
    ParseFormat(t);
    ParseFormat(u);
  }

  class ModbusData {
    var buffer: seq<Row>      // `data_buf`
    var written: seq<Row>     // every row handed to the CSV writer, in order
    var fileOpen: bool        // `file` is not `None`
    ghost var added: seq<Row> // every row `add_data` was given, in order

    /**
     * The buffer stays below the threshold and the writer receives whole chunks; while the
     * file is open, the rows written followed by the buffer are every row added, and once it
     * is closed every row has been written.
     */
    ghost predicate Valid()
      reads this
    {
      && |buffer| < FlushThreshold
      && (fileOpen ==> written + buffer == added && |written| % FlushThreshold == 0)
      && (!fileOpen ==> written == added)
    }

    /** `__init__`: a fresh (truncated) file and an empty buffer. */
    constructor ()
      ensures Valid()
      ensures buffer == [] && written == [] && fileOpen && added == []
    {
      buffer, written, fileOpen, added := [], [], true, [];
    }

    /**
     * `add_data(time, int_data, float_data)`: buffer one row; when that makes 500, write all
     * of them in order and empty the buffer. Only a live object is called, and the file is
     * closed only by its finaliser.
     */
    method AddData(time: TimeOfDay, intData: int, floatData: real)
      requires Valid() && fileOpen
      modifies this`buffer, this`written, this`added
      ensures Valid()
      ensures added == old(added) + [Row(FormatHms(time), intData, floatData)]
      ensures |old(buffer)| + 1 < FlushThreshold ==> buffer == old(buffer) + [added[|added| - 1]] && written == old(written)
      ensures |old(buffer)| + 1 == FlushThreshold ==> buffer == [] && written == old(written) + old(buffer) + [added[|added| - 1]]
    {
      var row := Row(FormatHms(time), intData, floatData);
      added := added + [row];
      buffer := buffer + [row];
      if |buffer| >= FlushThreshold {
        written := written + buffer;
        buffer := [];
      }
    }

    /**
     * `__del__`: write the buffered rows, then close the file once. The buffer is not
     * cleared. Writing a non-empty buffer through a writer whose file is already closed
     * raises, which is `ok == false`.
     */
    method Finalize() returns (ok: bool)
      requires Valid()
      modifies this`written, this`fileOpen
      ensures Valid()
      ensures !fileOpen && written == added
      ensures ok <==> old(fileOpen) || buffer == []
      ensures old(fileOpen) ==> written == old(written) + buffer
      ensures !old(fileOpen) ==> written == old(written)
    {
      if !fileOpen {
        return buffer == [];
      }
      written := written + buffer;
      fileOpen := false;
      return true;
    }
  }
}
