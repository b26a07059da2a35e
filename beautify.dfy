/** `beautifyText` (gulp/gulpfile.js lines 720-764): wrap text in the SGR
    escape sequences of section 8.3.117 of ECMA-48 named by a list of options,
    opening codes in option order before the text and closing codes in
    reverse order after it. */
module Beautify {
  import opened JsStrings

  /** The SGR codes `beautifyText` knows (lines 722-750), looked up by
      name; `None` is the `undefined` of a missing property. `reset` has no
      `end_reset` entry. */
  function Attribute(name: string): Option<string> {
    match name
      case "reset"              => Some("\U{1B}[0m")
      case "bold"               => Some("\U{1B}[1m")
      case "end_bold"           => Some("\U{1B}[21m")
      case "dim"                => Some("\U{1B}[2m")
      case "end_dim"            => Some("\U{1B}[22m")
      case "italic"             => Some("\U{1B}[3m")
      case "end_italic"         => Some("\U{1B}[23m")
      case "underline"          => Some("\U{1B}[4m")
      case "end_underline"      => Some("\U{1B}[24m")
      case "blink"              => Some("\U{1B}[5m")
      case "end_blink"          => Some("\U{1B}[25m")
      case "unknown"            => Some("\U{1B}[6m")
      case "end_unknown"        => Some("\U{1B}[26m")
      case "inverse"            => Some("\U{1B}[7m")
      case "end_inverse"        => Some("\U{1B}[27m")
      case "hidden"             => Some("\U{1B}[8m")
      case "end_hidden"         => Some("\U{1B}[28m")
      case "strikethrough"      => Some("\U{1B}[9m")
      case "end_strikethrough"  => Some("\U{1B}[29m")
      case "fgblack"            => Some("\U{1B}[30m")
      case "end_fgblack"        => Some("\U{1B}[39m")
      case "fgred"              => Some("\U{1B}[31m")
      case "end_fgred"          => Some("\U{1B}[39m")
      case "fggreen"            => Some("\U{1B}[32m")
      case "end_fggreen"        => Some("\U{1B}[39m")
      case "fgyellow"           => Some("\U{1B}[33m")
      case "end_fgyellow"       => Some("\U{1B}[39m")
      case "fgblue"             => Some("\U{1B}[34m")
      case "end_fgblue"         => Some("\U{1B}[39m")
      case "fgmagenta"          => Some("\U{1B}[35m")
      case "end_fgmagenta"      => Some("\U{1B}[39m")
      case "fgcyan"             => Some("\U{1B}[36m")
      case "end_fgcyan"         => Some("\U{1B}[39m")
      case "fgwhite"            => Some("\U{1B}[37m")
      case "end_fgwhite"        => Some("\U{1B}[39m")
      case "fggrey"             => Some("\U{1B}[90m")
      case "end_fggrey"         => Some("\U{1B}[39m")
      case "bgblack"            => Some("\U{1B}[40m")
      case "end_bgblack"        => Some("\U{1B}[49m")
      case "bgred"              => Some("\U{1B}[41m")
      case "end_bgred"          => Some("\U{1B}[49m")
      case "bggreen"            => Some("\U{1B}[42m")
      case "end_bggreen"        => Some("\U{1B}[49m")
      case "bgyellow"           => Some("\U{1B}[43m")
      case "end_bgyellow"       => Some("\U{1B}[49m")
      case "bgblue"             => Some("\U{1B}[44m")
      case "end_bgblue"         => Some("\U{1B}[49m")
      case "bgmagenta"          => Some("\U{1B}[45m")
      case "end_bgmagenta"      => Some("\U{1B}[49m")
      case "bgcyan"             => Some("\U{1B}[46m")
      case "end_bgcyan"         => Some("\U{1B}[49m")
      case "bgwhite"            => Some("\U{1B}[47m")
      case "end_bgwhite"        => Some("\U{1B}[49m")
      case _                    => None
  }

  /** An option is recognised when its lower-case spelling names an
      attribute. */
  predicate Recognised(option: string) {
    Attribute(Lower(option)).Some?
  }

  /** The opening code an option contributes (line 759). */
  function OpenCode(option: string): string {
    match Attribute(Lower(option))
    case Some(code) => code
    case None => ""
  }

  /** The closing code an option contributes (line 760): its `end_` entry, or
      the text "undefined" that concatenating a missing entry produces. */
  function CloseCode(option: string): string {
    if !Recognised(option) then ""
    else match Attribute("end_" + Lower(option))
      case Some(code) => code
      case None => "undefined"
  }

  /** The opening codes of the options, in option order. */
  function Opens(options: seq<string>): string {
    if options == [] then []
    else Opens(options[..|options| - 1]) + OpenCode(options[|options| - 1])
  }

  /** The closing codes of the options, in reverse option order. */
  function Closes(options: seq<string>): string {
    if options == [] then []
    else CloseCode(options[|options| - 1]) + Closes(options[..|options| - 1])
  }

  /** `beautifyText(text, options)`: one pass over the options, appending
      each opening code and prepending each closing code. */
  method BeautifyText(text: string, options: seq<string>) returns (r: string)
    ensures r == Opens(options) + text + Closes(options)
  {
    var attributes, endAttributes := "", "";
    for i := 0 to |options|
      invariant attributes == Opens(options[..i])
      invariant endAttributes == Closes(options[..i])
    {
      var option := Lower(options[i]);
      var code := Attribute(option);
      if code.Some? {
        attributes := attributes + code.value;
        var endCode := Attribute("end_" + option);
        endAttributes := (if endCode.Some? then endCode.value else "undefined") + endAttributes;
      }
      OptionsStep(options, i);
    }
    assert options[..|options|] == options;
    r := attributes + text + endAttributes;
  }

  /** One more option adds its opening code last and its closing code
      first. */
  lemma OptionsStep(options: seq<string>, i: nat)
    requires i < |options|
    ensures Opens(options[..i + 1]) == Opens(options[..i]) + OpenCode(options[i])
    ensures Closes(options[..i + 1]) == CloseCode(options[i]) + Closes(options[..i])
  {
    assert options[..i + 1][..i] == options[..i];
  }

  /** Opening codes of a concatenation come in option order. */
  lemma {:induction false} OpensAppend(a: seq<string>, b: seq<string>)
    ensures Opens(a + b) == Opens(a) + Opens(b)
  {
    if b != [] {
      var init, last := b[..|b| - 1], b[|b| - 1];
      OpensAppend(a, init);
      assert (a + b)[..|a + b| - 1] == a + init;
      assert (a + b)[|a + b| - 1] == last;
      ConcatAssoc(Opens(a), Opens(init), OpenCode(last));
    } else {
      assert a + b == a;
    }
  }

  /** Closing codes of a concatenation come in reverse option order. */
  lemma {:induction false} ClosesAppend(a: seq<string>, b: seq<string>)
    ensures Closes(a + b) == Closes(b) + Closes(a)
  {
    if b != [] {
      var init, last := b[..|b| - 1], b[|b| - 1];
      ClosesAppend(a, init);
      assert (a + b)[..|a + b| - 1] == a + init;
      assert (a + b)[|a + b| - 1] == last;
      ConcatAssoc(CloseCode(last), Closes(init), Closes(a));
    } else {
      assert a + b == a;
    }
  }

  /** The codes nest: beautifying with `a + b` is beautifying with `b` and
      then wrapping the result with `a`. */
  lemma BeautifyNests(text: string, a: seq<string>, b: seq<string>)
    ensures Opens(a + b) + text + Closes(a + b)
      == Opens(a) + (Opens(b) + text + Closes(b)) + Closes(a)
  {
    OpensAppend(a, b);
    ClosesAppend(a, b);
    var oa, ob, ca, cb := Opens(a), Opens(b), Closes(a), Closes(b);
    ConcatAssoc(oa, ob, text);
    ConcatAssoc(oa + (ob + text), cb, ca);
    ConcatAssoc(oa, ob + text, cb);
  }

  /** The options that are recognised, in order. */
  function RecognisedOnly(options: seq<string>): seq<string> {
    if options == [] then []
    else
      var last := options[|options| - 1];
      RecognisedOnly(options[..|options| - 1]) + (if Recognised(last) then [last] else [])
  }

  /** Unrecognised options contribute nothing. */
  lemma {:induction false} UnrecognisedIgnored(options: seq<string>)
    ensures Opens(options) == Opens(RecognisedOnly(options))
    ensures Closes(options) == Closes(RecognisedOnly(options))
  {
    if options != [] {
      var init, last := options[..|options| - 1], options[|options| - 1];
      UnrecognisedIgnored(init);
      OpensAppend(RecognisedOnly(init), if Recognised(last) then [last] else []);
      ClosesAppend(RecognisedOnly(init), if Recognised(last) then [last] else []);
      if Recognised(last) {
        assert Opens([last]) == OpenCode(last);
        assert Closes([last]) == CloseCode(last);
      }
    }
  }

  /** As written, `reset` opens with SGR 0 and, lacking an `end_reset`
      entry, closes with the text "undefined". */
  lemma ResetClosesWithUndefined(text: string)
    ensures Opens(["reset"]) + text + Closes(["reset"]) == "\U{1B}[0m" + text + "undefined"
  {
    SingleOption("reset");
    LowerReset();
  }

  /** `Bold` is recognised in any case, opens with SGR 1 and closes with SGR
      21. */
  lemma BoldCodes(text: string)
    ensures Opens(["Bold"]) + text + Closes(["Bold"]) == "\U{1B}[1m" + text + "\U{1B}[21m"
  {
    SingleOption("Bold");
    LowerBold();
  }

  /** A single option contributes its own opening and closing codes. */
  lemma SingleOption(option: string)
    ensures Opens([option]) == OpenCode(option) && Closes([option]) == CloseCode(option)
  {
    assert [option][..0] == [];
  }

  lemma LowerReset()
    ensures Lower("reset") == "reset" && "end_" + Lower("reset") == "end_reset"
  {
    var reset := Lower("reset");
    assert |reset| == 5;
    assert reset[0] == 'r' && reset[1] == 'e' && reset[2] == 's' && reset[3] == 'e' && reset[4] == 't';
  }

  lemma LowerBold()
    ensures Lower("Bold") == "bold" && "end_" + Lower("Bold") == "end_bold"
  {
    var bold := Lower("Bold");
    assert |bold| == 4;
    assert bold[0] == 'b' && bold[1] == 'o' && bold[2] == 'l' && bold[3] == 'd';
  }

  /** The closing code evidently intended: the option's `end_` entry, or
      nothing when it has none, so that only escape sequences from the table
      ever follow the text. */
  function IntendedCloseCode(option: string): (r: string)
    ensures r != [] ==> (Recognised(option) && Attribute("end_" + Lower(option)) == Some(r))
    ensures Recognised(option) && Attribute("end_" + Lower(option)).Some? ==>
      r == Attribute("end_" + Lower(option)).value
  {
    if !Recognised(option) then ""
    else match Attribute("end_" + Lower(option))
      case Some(code) => code
      case None => ""
  }

  /** The intended closing code agrees with the one written wherever that
      is not the text "undefined". */
  lemma IntendedCloseCodeAgrees(option: string)
    ensures CloseCode(option) != "undefined" ==> IntendedCloseCode(option) == CloseCode(option)
  {
    var e := Attribute("end_" + Lower(option));
    assert CloseCode(option) == if !Recognised(option) then "" else if e.Some? then e.value else "undefined";
    assert IntendedCloseCode(option) == if !Recognised(option) then "" else if e.Some? then e.value else "";
  }

  /** Where the code as written closes `reset` with "undefined", the intended
      code closes it with nothing. */
  lemma IntendedResetCloses()
    ensures CloseCode("reset") == "undefined" && IntendedCloseCode("reset") == []
  {
    LowerReset();
  }
}
