/**
 * The receive-metadata formatter `display_rx_metadata`: it writes one
 * `uhd::rx_metadata_t` record to a stream as a fixed sequence of text lines.
 * Here the stream output is the sequence of lines written (each without its
 * trailing `std::endl`), and a parser of that text is the formatter's partner.
 */
module RxMetadata {
  import opened Options
  import opened StreamText

  /** The values of the driver's `rx_metadata_t::error_code_t` enumerators. */
  const ERROR_CODE_NONE: int := 0x0
  const ERROR_CODE_TIMEOUT: int := 0x1
  const ERROR_CODE_LATE_COMMAND: int := 0x2
  const ERROR_CODE_BROKEN_CHAIN: int := 0x4
  const ERROR_CODE_OVERFLOW: int := 0x8
  const ERROR_CODE_ALIGNMENT: int := 0xc
  const ERROR_CODE_BAD_PACKET: int := 0xf

  /** The seven codes that the formatter's `switch` has a case for. */
  const LISTED_CODES: set<int> := {
    ERROR_CODE_NONE, ERROR_CODE_TIMEOUT, ERROR_CODE_LATE_COMMAND, ERROR_CODE_BROKEN_CHAIN,
    ERROR_CODE_OVERFLOW, ERROR_CODE_ALIGNMENT, ERROR_CODE_BAD_PACKET
  }

  /**
   * The fields of `rx_metadata_t` that the formatter reads. The time stamp
   * is a floating-point number; it is kept as the text the stream prints
   * for `time_spec.get_real_secs()`. The error code is the raw enumerator
   * value, so values outside the seven listed ones are representable.
   */
  datatype Metadata = Metadata(
    hasTimeSpec: bool,
    realSecsText: string,
    moreFragments: bool,
    fragmentOffset: nat,
    startOfBurst: bool,
    endOfBurst: bool,
    errorCode: int)

  const HAS_TIME_SPEC_PREFIX: string := "Has time spec? "
  const SECONDS_PREFIX: string := "\tSeconds "
  const MORE_FRAGMENTS_PREFIX: string := "More fragments? "
  const FRAGMENT_OFFSET_PREFIX: string := "Fragment Offset: "
  const START_OF_BURST_PREFIX: string := "Start of Burst? "
  const END_OF_BURST_PREFIX: string := "End of Burst? "
  const ERROR_PREFIX: string := "Error : "

  /** The label printed for an error code by the `switch`, if it has a case for it. */
  function ErrorLabel(code: int): (name: Option<string>)
    ensures name.Some? <==> code in LISTED_CODES
  {
    if code == ERROR_CODE_NONE then Some("None")
    else if code == ERROR_CODE_TIMEOUT then Some("Timeout")
    else if code == ERROR_CODE_LATE_COMMAND then Some("Late Command")
    else if code == ERROR_CODE_BROKEN_CHAIN then Some("Broken Chain")
    else if code == ERROR_CODE_OVERFLOW then Some("Overflow")
    else if code == ERROR_CODE_ALIGNMENT then Some("Alignment")
    else if code == ERROR_CODE_BAD_PACKET then Some("Bad Packet")
    else None
  }

  /** The code a printed error label stands for. */
  function CodeOfLabel(name: string): (code: Option<int>)
    ensures code.Some? ==> code.value in LISTED_CODES
  {
    if name == "None" then Some(ERROR_CODE_NONE)
    else if name == "Timeout" then Some(ERROR_CODE_TIMEOUT)
    else if name == "Late Command" then Some(ERROR_CODE_LATE_COMMAND)
    else if name == "Broken Chain" then Some(ERROR_CODE_BROKEN_CHAIN)
    else if name == "Overflow" then Some(ERROR_CODE_OVERFLOW)
    else if name == "Alignment" then Some(ERROR_CODE_ALIGNMENT)
    else if name == "Bad Packet" then Some(ERROR_CODE_BAD_PACKET)
    else None
  }

  /** Each listed code has its own label: the label printed determines the code. */
  lemma ErrorLabelDeterminesCode(code: int)
    requires code in LISTED_CODES
    ensures CodeOfLabel(ErrorLabel(code).value) == Some(code)
  {
  }

  lemma ErrorLabelInjective(c: int, d: int)
    requires ErrorLabel(c).Some? && ErrorLabel(c) == ErrorLabel(d)
    ensures c == d
  {
    ErrorLabelDeterminesCode(c);
    ErrorLabelDeterminesCode(d);
  }

  /** The `Error : <label>` line, or nothing for a code the `switch` has no case for. */
  function ErrorLines(code: int): (lines: seq<string>)
    ensures |lines| <= 1
    ensures |lines| == 1 <==> code in LISTED_CODES
  {
    match ErrorLabel(code)
    case Some(name) => [ERROR_PREFIX + name]
    case None => []
  }

  /** The seconds line, written only for a record with a time stamp. */
  function SecondsLines(md: Metadata): (lines: seq<string>)
    ensures |lines| <= 1
    ensures |lines| == 1 <==> md.hasTimeSpec
  {
    if md.hasTimeSpec then [SECONDS_PREFIX + md.realSecsText] else []
  }

  /** The fragment and burst lines. */
  function FlagLines(md: Metadata): (lines: seq<string>)
    ensures |lines| == 4
  {
    [ MORE_FRAGMENTS_PREFIX + BoolText(md.moreFragments),
      FRAGMENT_OFFSET_PREFIX + NatText(md.fragmentOffset),
      START_OF_BURST_PREFIX + BoolText(md.startOfBurst),
      END_OF_BURST_PREFIX + BoolText(md.endOfBurst) ]
  }

  /** The lines `display_rx_metadata(md, os)` writes to `os`, in order. */
  function DisplayRxMetadata(md: Metadata): (lines: seq<string>)
    ensures |lines| == (if md.hasTimeSpec then 6 else 5) + (if md.errorCode in LISTED_CODES then 1 else 0)
  {
    [HAS_TIME_SPEC_PREFIX + BoolText(md.hasTimeSpec)] + SecondsLines(md) + FlagLines(md) + ErrorLines(md.errorCode)
  }

  /** The kinds of line the formatter can write, told apart by their leading text. */
  datatype LineKind = HasTimeSpecLine | SecondsLine | MoreFragmentsLine | FragmentOffsetLine
                    | StartOfBurstLine | EndOfBurstLine | ErrorLine | OtherLine

  function KindOf(line: string): LineKind {
    if HAS_TIME_SPEC_PREFIX <= line then HasTimeSpecLine
    else if SECONDS_PREFIX <= line then SecondsLine
    else if MORE_FRAGMENTS_PREFIX <= line then MoreFragmentsLine
    else if FRAGMENT_OFFSET_PREFIX <= line then FragmentOffsetLine
    else if START_OF_BURST_PREFIX <= line then StartOfBurstLine
    else if END_OF_BURST_PREFIX <= line then EndOfBurstLine
    else if ERROR_PREFIX <= line then ErrorLine
    else OtherLine
  }

  function Kinds(lines: seq<string>): (ks: seq<LineKind>)
    ensures |ks| == |lines|
    ensures forall i :: 0 <= i < |lines| ==> ks[i] == KindOf(lines[i])
  {
    seq(|lines|, i requires 0 <= i < |lines| => KindOf(lines[i]))
  }

  /** The leading text of each kind of line. */
  function PrefixOf(k: LineKind): string
    requires k != OtherLine
  {
    match k
    case HasTimeSpecLine => HAS_TIME_SPEC_PREFIX
    case SecondsLine => SECONDS_PREFIX
    case MoreFragmentsLine => MORE_FRAGMENTS_PREFIX
    case FragmentOffsetLine => FRAGMENT_OFFSET_PREFIX
    case StartOfBurstLine => START_OF_BURST_PREFIX
    case EndOfBurstLine => END_OF_BURST_PREFIX
    case ErrorLine => ERROR_PREFIX
  }

  /** No two leading texts are prefixes of one line: a line's leading text tells its kind. */
  lemma KindOfPrefixed(k: LineKind, rest: string)
    requires k != OtherLine
    ensures KindOf(PrefixOf(k) + rest) == k
  {
    var line := PrefixOf(k) + rest;
    assert line[0] == PrefixOf(k)[0];
    assert line[1] == PrefixOf(k)[1];
    assert PrefixOf(k) <= line;
  }

  /**
   * The order of the lines: has-time-spec, the seconds line exactly when the
   * record has a time stamp, the four fragment and burst lines, then the
   * error line exactly when the code is one of the seven listed.
   */
  lemma DisplayLineOrder(md: Metadata)
    ensures Kinds(DisplayRxMetadata(md)) ==
      [HasTimeSpecLine]
      + (if md.hasTimeSpec then [SecondsLine] else [])
      + [MoreFragmentsLine, FragmentOffsetLine, StartOfBurstLine, EndOfBurstLine]
      + (if md.errorCode in LISTED_CODES then [ErrorLine] else [])
  {
    var head := [HAS_TIME_SPEC_PREFIX + BoolText(md.hasTimeSpec)];
    var secs := SecondsLines(md);
    var flags := FlagLines(md);
    var err := ErrorLines(md.errorCode);
    assert DisplayRxMetadata(md) == head + secs + flags + err;
    KindsConcat(head + secs + flags, err);
    KindsConcat(head + secs, flags);
    KindsConcat(head, secs);
    KindOfPrefixed(HasTimeSpecLine, BoolText(md.hasTimeSpec));
    assert Kinds(head) == [HasTimeSpecLine];
    SecondsKinds(md);
    FlagKinds(md);
    ErrorKinds(md.errorCode);
  }

  lemma SecondsKinds(md: Metadata)
    ensures Kinds(SecondsLines(md)) == if md.hasTimeSpec then [SecondsLine] else []
  {
    if md.hasTimeSpec {
      KindOfPrefixed(SecondsLine, md.realSecsText);
    }
  }

  lemma FlagKinds(md: Metadata)
    ensures Kinds(FlagLines(md)) == [MoreFragmentsLine, FragmentOffsetLine, StartOfBurstLine, EndOfBurstLine]
  {
    KindOfPrefixed(MoreFragmentsLine, BoolText(md.moreFragments));
    KindOfPrefixed(FragmentOffsetLine, NatText(md.fragmentOffset));
    KindOfPrefixed(StartOfBurstLine, BoolText(md.startOfBurst));
    KindOfPrefixed(EndOfBurstLine, BoolText(md.endOfBurst));
  }

  lemma ErrorKinds(code: int)
    ensures Kinds(ErrorLines(code)) == if code in LISTED_CODES then [ErrorLine] else []
  {
    if code in LISTED_CODES {
      KindOfPrefixed(ErrorLine, ErrorLabel(code).value);
    }
  }

  lemma KindsConcat(a: seq<string>, b: seq<string>)
    ensures Kinds(a + b) == Kinds(a) + Kinds(b)
  {
  }

  /** The time-stamp line is written if and only if the record carries a time stamp. */
  lemma SecondsLineIffTimeSpec(md: Metadata)
    ensures SecondsLine in Kinds(DisplayRxMetadata(md)) <==> md.hasTimeSpec
  {
    DisplayLineOrder(md);
  }

  /** An `Error :` line is written if and only if the code is one of the seven listed. */
  lemma ErrorLineIffListed(md: Metadata)
    ensures ErrorLine in Kinds(DisplayRxMetadata(md)) <==> md.errorCode in LISTED_CODES
  {
    DisplayLineOrder(md);
  }

  /** What a reader of the formatter's text can recover from it. */
  datatype Reading = Reading(
    hasTimeSpec: bool,
    realSecsText: Option<string>,
    moreFragments: bool,
    fragmentOffset: nat,
    startOfBurst: bool,
    endOfBurst: bool,
    errorCode: Option<int>)

  /** The information `DisplayRxMetadata` keeps: the seconds only with a time stamp, the code only when listed. */
  function Visible(md: Metadata): Reading {
    Reading(
      md.hasTimeSpec,
      if md.hasTimeSpec then Some(md.realSecsText) else None,
      md.moreFragments,
      md.fragmentOffset,
      md.startOfBurst,
      md.endOfBurst,
      if md.errorCode in LISTED_CODES then Some(md.errorCode) else None)
  }

  /** Reads the four fragment and burst lines and the optional error line. */
  function ParseTail(lines: seq<string>, hasTimeSpec: bool, secs: Option<string>): Option<Reading> {
    if |lines| < 4 || |lines| > 5 then None
    else
      var moreText :- StripPrefix(MORE_FRAGMENTS_PREFIX, lines[0]);
      var moreFragments :- ParseBool(moreText);
      var offsetText :- StripPrefix(FRAGMENT_OFFSET_PREFIX, lines[1]);
      var fragmentOffset :- ParseNat(offsetText);
      var startText :- StripPrefix(START_OF_BURST_PREFIX, lines[2]);
      var startOfBurst :- ParseBool(startText);
      var endText :- StripPrefix(END_OF_BURST_PREFIX, lines[3]);
      var endOfBurst :- ParseBool(endText);
      if |lines| == 4 then
        Some(Reading(hasTimeSpec, secs, moreFragments, fragmentOffset, startOfBurst, endOfBurst, None))
      else
        var name :- StripPrefix(ERROR_PREFIX, lines[4]);
        var code :- CodeOfLabel(name);
        Some(Reading(hasTimeSpec, secs, moreFragments, fragmentOffset, startOfBurst, endOfBurst, Some(code)))
  }

  /** Reads a record back from the text `DisplayRxMetadata` writes. */
  function ParseRxMetadata(lines: seq<string>): Option<Reading> {
    if |lines| == 0 then None
    else
      var flagText :- StripPrefix(HAS_TIME_SPEC_PREFIX, lines[0]);
      var hasTimeSpec :- ParseBool(flagText);
      if hasTimeSpec then
        if |lines| < 2 then None
        else
          var secs :- StripPrefix(SECONDS_PREFIX, lines[1]);
          ParseTail(lines[2..], true, Some(secs))
      else
        ParseTail(lines[1..], false, None)
  }

  /**
   * The flag and offset lines echo the record's fields unchanged, the
   * seconds line its time stamp and the error line its code: reading the
   * text back recovers everything the formatter is meant to show.
   */
  lemma DisplayRoundTrip(md: Metadata)
    ensures ParseRxMetadata(DisplayRxMetadata(md)) == Some(Visible(md))
  {
    var lines := DisplayRxMetadata(md);
    StripPrefixOfConcat(HAS_TIME_SPEC_PREFIX, BoolText(md.hasTimeSpec));
    var secs := if md.hasTimeSpec then Some(md.realSecsText) else None;
    if md.hasTimeSpec {
      StripPrefixOfConcat(SECONDS_PREFIX, md.realSecsText);
      assert lines[2..] == FlagLines(md) + ErrorLines(md.errorCode);
    } else {
      assert lines[1..] == FlagLines(md) + ErrorLines(md.errorCode);
    }
    TailRoundTrip(md, md.hasTimeSpec, secs);
  }

  /** The fragment, burst and error lines read back as the fields they print. */
  lemma TailRoundTrip(md: Metadata, hasTimeSpec: bool, secs: Option<string>)
    ensures ParseTail(FlagLines(md) + ErrorLines(md.errorCode), hasTimeSpec, secs)
         == Some(Visible(md).(hasTimeSpec := hasTimeSpec, realSecsText := secs))
  {
    var lines := FlagLines(md) + ErrorLines(md.errorCode);
    StripPrefixOfConcat(MORE_FRAGMENTS_PREFIX, BoolText(md.moreFragments));
    StripPrefixOfConcat(FRAGMENT_OFFSET_PREFIX, NatText(md.fragmentOffset));
    StripPrefixOfConcat(START_OF_BURST_PREFIX, BoolText(md.startOfBurst));
    StripPrefixOfConcat(END_OF_BURST_PREFIX, BoolText(md.endOfBurst));
    NatTextRoundTrip(md.fragmentOffset);
    if md.errorCode in LISTED_CODES {
      assert lines[4] == ERROR_PREFIX + ErrorLabel(md.errorCode).value;
      StripPrefixOfConcat(ERROR_PREFIX, ErrorLabel(md.errorCode).value);
      ErrorLabelDeterminesCode(md.errorCode);
    }
  }

  /** Two records with the same visible fields are printed the same, and conversely. */
  lemma DisplayInjective(a: Metadata, b: Metadata)
    ensures DisplayRxMetadata(a) == DisplayRxMetadata(b) <==> Visible(a) == Visible(b)
  {
    DisplayRoundTrip(a);
    DisplayRoundTrip(b);
    if Visible(a) == Visible(b) {
      assert ErrorLines(a.errorCode) == ErrorLines(b.errorCode);
    }
  }
}
