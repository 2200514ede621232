/**
 * Highlight tags of an assignment. The assignment stores its highlight
 * options as "name:colour" entries separated by commas (";" may stand for
 * ":"); `ArrayOfTags` turns them into (name, css colour) pairs, normalising
 * every colour to an `rgba(r,g,b,0.3)` string. An entry whose colour is
 * missing or cannot be converted does not become a tag: its name, followed by
 * a space, is carried over to the front of the next tag's name.
 */
module Highlights {
  import opened Values
  import opened Text

  datatype Tag = Tag(name: string, color: string)

  predicate IsHexDigit(c: char)
  {
    '0' <= c <= '9' || 'a' <= c <= 'f' || 'A' <= c <= 'F'
  }

  function HexValue(c: char): (v: nat)
    requires IsHexDigit(c)
    ensures v < 16
  {
    if '0' <= c <= '9' then c as int - '0' as int
    else if 'a' <= c <= 'f' then c as int - 'a' as int + 10
    else c as int - 'A' as int + 10
  }

  /** The ASCII characters Python strips around the text given to `int()`. */
  predicate IsAsciiSpace(c: char)
  {
    c == ' ' || '\t' <= c <= '\r' || 28 <= c as int <= 31
  }

  /**
   * Python's `int(a + b, 16)` on a two-character string: two hex digits, a
   * sign and a digit, or a digit with a space on either side; anything else
   * raises ValueError.
   */
  function ParseHexPair(a: char, b: char): (r: Result<int>)
    ensures IsHexDigit(a) && IsHexDigit(b) ==> r == Ok(16 * HexValue(a) + HexValue(b))
    ensures r.Ok? ==> -15 <= r.value <= 255
    ensures r.Ok? ==> IsHexDigit(a) || IsHexDigit(b)
    ensures r.Err? ==> r.error == ValueError
  {
    if IsHexDigit(a) && IsHexDigit(b) then Ok(16 * HexValue(a) + HexValue(b))
    else if a == '+' && IsHexDigit(b) then Ok(HexValue(b))
    else if a == '-' && IsHexDigit(b) then Ok(-(HexValue(b) as int))
    else if IsAsciiSpace(a) && IsHexDigit(b) then Ok(HexValue(b))
    else if IsHexDigit(a) && IsAsciiSpace(b) then Ok(HexValue(a))
    else Err(ValueError)
  }

  /** The normalised colour: three integer channels and a fixed 0.3 alpha. */
  function Rgba(red: int, green: int, blue: int): string
  {
    "rgba(" + IntToString(red) + "," + IntToString(green) + "," + IntToString(blue) + ",0.3)"
  }

  /**
   * The hex branch of the colour conversion, given the colour without its
   * first character: three digits are each doubled, otherwise the first six
   * are read in pairs. A pair that is too short raises IndexError and one that
   * is not a number raises ValueError, checked in evaluation order.
   */
  function HexColor(digits: string): (r: Result<string>)
    ensures r.Err? ==> r.error in {IndexError, ValueError}
    ensures r.Err? && r.error == IndexError ==> |digits| != 3 && |digits| < 6
    ensures r.Ok? ==> StartsWith(r.value, "rgba(")
  {
    if |digits| == 3 then
      match (ParseHexPair(digits[0], digits[0]), ParseHexPair(digits[1], digits[1]), ParseHexPair(digits[2], digits[2]))
      case (Ok(red), Ok(green), Ok(blue)) => Ok(Rgba(red, green, blue))
      case (Err(e), _, _) => Err(e)
      case (_, Err(e), _) => Err(e)
      case (_, _, Err(e)) => Err(e)
    else if |digits| < 2 then Err(IndexError)
    else
      match ParseHexPair(digits[0], digits[1])
      case Err(e) => Err(e)
      case Ok(red) =>
        if |digits| < 4 then Err(IndexError)
        else
          match ParseHexPair(digits[2], digits[3])
          case Err(e) => Err(e)
          case Ok(green) =>
            if |digits| < 6 then Err(IndexError)
            else
              match ParseHexPair(digits[4], digits[5])
              case Err(e) => Err(e)
              case Ok(blue) => Ok(Rgba(red, green, blue))
  }

  /** The sixteen colour names the conversion knows, with their hex values. */
  const NamedColors: map<string, string> := map[
    "acqua" := "#0ff", "teal" := "#008080", "blue" := "#00f", "navy" := "#000080",
    "yellow" := "#ff0", "olive" := "#808000", "lime" := "#0f0", "green" := "#008000",
    "fuchsia" := "#f0f", "purple" := "#800080", "red" := "#f00", "maroon" := "#800000",
    "white" := "#fff", "gray" := "#808080", "silver" := "#c0c0c0", "black" := "#000"]

  lemma NamedColorsAreHex(name: string)
    requires name in NamedColors
    ensures |NamedColors[name]| == 4 || |NamedColors[name]| == 7
    ensures NamedColors[name][0] == '#'
    ensures forall i :: 1 <= i < |NamedColors[name]| ==> IsHexDigit(NamedColors[name][i])
  {
  }

  /** Colour names are plain words. */
  lemma NamedColorNames(name: string)
    requires name in NamedColors
    ensures '#' !in name && '(' !in name
  {
  }

  /** Three or six hex digits always convert. */
  lemma HexDigitsConvert(digits: string)
    requires |digits| == 3 || |digits| == 6
    requires forall i :: 0 <= i < |digits| ==> IsHexDigit(digits[i])
    ensures HexColor(digits).Ok? && StartsWith(HexColor(digits).value, "rgba(")
  {
  }

  /**
   * The colour conversion: hex when the string contains '#', `rgb(` becomes
   * `rgba(` with a 0.3 alpha, `rgba(` is kept, a known name goes through its
   * hex value, and anything else becomes the empty string. Only the hex
   * branch can raise.
   */
  function ColorValues(color: string): (r: Result<string>)
    ensures r.Err? ==> r.error in {IndexError, ValueError}
    ensures r.Err? ==> '#' in color || color in NamedColors
    decreases if '#' in color then 0 else 1
  {
    if '#' in color then HexColor(color[1..])
    else if Contains(color, "rgb(") then Ok(ReplaceAll(ReplaceAll(color, "rgb(", "rgba("), ")", ",0.3)"))
    else if Contains(color, "rgba(") then Ok(color)
    else if color in NamedColors then
      NamedColorsAreHex(color);
      ColorValues(NamedColors[color])
    else Ok("")
  }

  /** `#abc` doubles each digit: `rgba(int(aa),int(bb),int(cc),0.3)`. */
  lemma ShortHexColor(a: char, b: char, c: char)
    requires IsHexDigit(a) && IsHexDigit(b) && IsHexDigit(c)
    ensures ColorValues(['#', a, b, c]) == Ok(Rgba(17 * HexValue(a), 17 * HexValue(b), 17 * HexValue(c)))
  {
    assert ['#', a, b, c][1..] == [a, b, c];
  }

  /** `#aabbcc` reads its six digits in pairs. */
  lemma LongHexColor(a1: char, a2: char, b1: char, b2: char, c1: char, c2: char)
    requires IsHexDigit(a1) && IsHexDigit(a2) && IsHexDigit(b1)
    requires IsHexDigit(b2) && IsHexDigit(c1) && IsHexDigit(c2)
    ensures ColorValues(['#', a1, a2, b1, b2, c1, c2]) ==
              Ok(Rgba(16 * HexValue(a1) + HexValue(a2), 16 * HexValue(b1) + HexValue(b2),
                      16 * HexValue(c1) + HexValue(c2)))
  {
    assert ['#', a1, a2, b1, b2, c1, c2][1..] == [a1, a2, b1, b2, c1, c2];
  }

  /** A hex colour of strict hex digits has channels in 0..255. */
  lemma HexChannelsInRange(a: char, b: char)
    requires IsHexDigit(a) && IsHexDigit(b)
    ensures ParseHexPair(a, b).Ok? && 0 <= ParseHexPair(a, b).value <= 255
  {
  }

  /** The first rewrite of the `rgb(` branch: the leading `rgb(` becomes `rgba(`. */
  lemma RgbPrefixRewrite(body: string)
    requires '(' !in body
    ensures ReplaceAll("rgb(" + body + ")", "rgb(", "rgba(") == "rgba(" + body + ")"
  {
    var color := "rgb(" + body + ")";
    assert StartsWith(color, "rgb(");
    assert color[4..] == body + ")";
    NotContainsMissingChar(body + ")", "rgb(", 3);
    ReplaceAbsent(body + ")", "rgb(", "rgba(");
  }

  /** The second rewrite of the `rgb(` branch: the closing parenthesis becomes `,0.3)`. */
  lemma CloseParenRewrite(body: string)
    requires '(' !in body && ')' !in body
    ensures ReplaceAll("rgba(" + body + ")", ")", ",0.3)") == "rgba(" + body + ",0.3)"
  {
    ReplaceCharConcat("rgba(" + body, [')'], ')', ",0.3)");
    NotContainsMissingChar("rgba(" + body, ")", 0);
    ReplaceAbsent("rgba(" + body, ")", ",0.3)");
    assert StartsWith([')'], ")");
    assert ReplaceAll([')'], ")", ",0.3)") == ",0.3)" + ReplaceAll([], ")", ",0.3)");
  }

  /** The text rewrite of the `rgb(` branch on `rgb(body)`. */
  lemma RgbRewrite(body: string)
    requires '(' !in body && ')' !in body
    ensures ReplaceAll(ReplaceAll("rgb(" + body + ")", "rgb(", "rgba("), ")", ",0.3)") == "rgba(" + body + ",0.3)"
  {
    RgbPrefixRewrite(body);
    CloseParenRewrite(body);
  }

  /** `rgb(r,g,b)` becomes `rgba(r,g,b,0.3)`. */
  lemma RgbColor(body: string)
    requires '#' !in body && '(' !in body && ')' !in body
    ensures ColorValues("rgb(" + body + ")") == Ok("rgba(" + body + ",0.3)")
  {
    var color := "rgb(" + body + ")";
    assert '#' !in color;
    assert Contains(color, "rgb(") by {
      assert StartsWith(color, "rgb(");
    }
    RgbRewrite(body);
  }

  /** A string that starts with `rgba(` and has no other '(' does not contain `rgb(`. */
  lemma RgbaHasNoRgb(body: string)
    requires '(' !in body
    ensures !Contains("rgba(" + body, "rgb(")
  {
    var color := "rgba(" + body;
    forall i: nat ensures !MatchAt(color, "rgb(", i) {
      if i + 4 > |color| {
      } else if i == 1 {
        assert color[i..i + 4][0] == 'g';
      } else if i == 0 {
        assert color[i..i + 4][3] == 'a';
      } else {
        assert color[i + 3] == body[i - 2];
        assert color[i..i + 4][3] == color[i + 3];
      }
    }
    NotContainsNoMatch(color, "rgb(");
  }

  /** `rgba(...)` is kept as it is. */
  lemma RgbaColor(body: string)
    requires '#' !in body && '(' !in body
    ensures ColorValues("rgba(" + body) == Ok("rgba(" + body)
  {
    var color := "rgba(" + body;
    assert '#' !in color;
    RgbaHasNoRgb(body);
    assert Contains(color, "rgba(") by {
      assert StartsWith(color, "rgba(");
    }
  }

  /** Every known colour name converts, through its hex value, without raising. */
  lemma NamedColorsConvert(name: string)
    requires name in NamedColors
    ensures ColorValues(name) == ColorValues(NamedColors[name])
    ensures ColorValues(name).Ok? && StartsWith(ColorValues(name).value, "rgba(")
  {
    var hex := NamedColors[name];
    NamedColorsAreHex(name);
    NamedColorNames(name);
    assert !Contains(name, "rgb(") && !Contains(name, "rgba(") by {
      NotContainsMissingChar(name, "rgb(", 3);
      NotContainsMissingChar(name, "rgba(", 4);
    }
    assert ColorValues(name) == ColorValues(hex);
    assert '#' in hex;
    assert ColorValues(hex) == HexColor(hex[1..]);
    HexDigitsConvert(hex[1..]);
  }

  /** Any other string without '#', `rgb(` or `rgba(` converts to the empty string. */
  lemma UnknownColor(color: string)
    requires '#' !in color && !Contains(color, "rgb(") && !Contains(color, "rgba(")
    requires color !in NamedColors
    ensures ColorValues(color) == Ok("")
  {
  }

  /** Only a colour containing '#' can make the conversion raise. */
  lemma OnlyHexRaises(color: string)
    ensures ColorValues(color).Err? ==> '#' in color
  {
    if '#' !in color && color in NamedColors {
      NamedColorsConvert(color);
    }
  }

  /** The parts of one entry: split on ':', or on ';' when that gives an odd count. */
  function EntryParts(entry: string): (res: seq<string>)
    ensures |res| >= 1
  {
    var res := Split(entry, ':');
    if |res| % 2 == 1 then Split(entry, ';') else res
  }

  /** The colour of an entry's parts: IndexError when there is no colour part. */
  function EntryColor(res: seq<string>): (r: Result<string>)
  {
    if |res| >= 2 then ColorValues(res[1]) else Err(IndexError)
  }

  /**
   * The tags of the remaining entries, with `pending` the names carried over
   * from entries that produced no tag.
   */
  function TagsFrom(entries: seq<string>, pending: string): seq<Tag>
  {
    if entries == [] then []
    else
      var res := EntryParts(entries[0]);
      var color := EntryColor(res);
      if color.Ok? then [Tag(pending + res[0], color.value)] + TagsFrom(entries[1..], "")
      else TagsFrom(entries[1..], pending + res[0] + " ")
  }

  /** The tags of a highlight option string. */
  function Tags(highlights: string): seq<Tag>
  {
    if |highlights| == 0 then [] else TagsFrom(Split(highlights, ','), "")
  }

  /** One entry of the loop: the tag it emits, or the name it carries over. */
  lemma TagsFromStep(entries: seq<string>, pending: string)
    requires entries != []
    ensures var res := EntryParts(entries[0]);
            var color := EntryColor(res);
            TagsFrom(entries, pending) ==
              if color.Ok? then [Tag(pending + res[0], color.value)] + TagsFrom(entries[1..], "")
              else TagsFrom(entries[1..], pending + res[0] + " ")
  {
  }

  /** The step of the loop at entry `i`. */
  lemma TagsFromAt(entries: seq<string>, i: nat, pending: string)
    requires i < |entries|
    ensures var res := EntryParts(entries[i]);
            var color := EntryColor(res);
            TagsFrom(entries[i..], pending) ==
              if color.Ok? then [Tag(pending + res[0], color.value)] + TagsFrom(entries[i + 1..], "")
              else TagsFrom(entries[i + 1..], pending + res[0] + " ")
  {
    TagsFromStep(entries[i..], pending);
    assert entries[i..][0] == entries[i];
    assert entries[i..][1..] == entries[i + 1..];
  }

  /**
   * One entry of the loop: the tag it emits when its colour converts, or
   * else the name carried over to the next tag followed by a space.
   */
  method EntryTag(col: string, concatTagName: string) returns (tag: Option<Tag>, next: string)
    ensures var res := EntryParts(col);
            var color := EntryColor(res);
            if color.Ok? then tag == Some(Tag(concatTagName + res[0], color.value)) && next == ""
            else tag == None && next == concatTagName + res[0] + " "
  {
    var res := Split(col, ':');
    if |res| % 2 == 1 {
      res := Split(col, ';');
    }
    var color := EntryColor(res);
    if color.Ok? {
      tag, next := Some(Tag(concatTagName + res[0], color.value)), "";
    } else {
      tag, next := None, concatTagName + res[0] + " ";
    }
  }

  /** The loop that builds the tags, entry by entry, with the carried-over name prefix. */
  method ArrayOfTags(highlights: string) returns (result: seq<Tag>)
    ensures result == Tags(highlights)
  {
    if |highlights| == 0 {
      return [];
    }
    var collection := Split(highlights, ',');
    ghost var all := TagsFrom(collection, "");
    result := [];
    var concatTagName := "";
    for i := 0 to |collection|
      invariant result + TagsFrom(collection[i..], concatTagName) == all
    {
      TagsFromAt(collection, i, concatTagName);
      var tag;
      tag, concatTagName := EntryTag(collection[i], concatTagName);
      if tag.Some? {
        assert (result + [tag.value]) + TagsFrom(collection[i + 1..], "") ==
               result + ([tag.value] + TagsFrom(collection[i + 1..], ""));
        result := result + [tag.value];
      }
    }
    assert collection[|collection|..] == [];
  }

  /** There are never more tags than entries. */
  lemma {:induction false} TagsFromBound(entries: seq<string>, pending: string)
    ensures |TagsFrom(entries, pending)| <= |entries|
  {
    if entries != [] {
      TagsFromBound(entries[1..], "");
      TagsFromBound(entries[1..], pending + EntryParts(entries[0])[0] + " ");
    }
  }

  lemma TagsBound(highlights: string)
    ensures |Tags(highlights)| <= Count(highlights, ',') + 1
  {
    if |highlights| > 0 {
      SplitCount(highlights, ',');
      TagsFromBound(Split(highlights, ','), "");
    }
  }

  /** A bare name, with no colour part, is carried over to the next tag followed by a space. */
  lemma BareNameCarriesOver(name: string, rest: seq<string>, pending: string)
    requires ':' !in name && ';' !in name
    ensures TagsFrom([name] + rest, pending) == TagsFrom(rest, pending + name + " ")
  {
    SplitAbsent(name, ':');
    SplitAbsent(name, ';');
    assert ([name] + rest)[1..] == rest;
  }

  /** A "name:colour" entry has the two parts. */
  lemma EntryPartsOfPair(name: string, color: string)
    requires ':' !in name && ':' !in color
    ensures EntryParts(name + ":" + color) == [name, color]
  {
    SplitJoin([name, color], ':');
    assert Join([name, color], ":") == name + ":" + color;
  }

  /** A well-formed entry emits a tag named by the carried-over prefix and its own name, and resets the prefix. */
  lemma EntryEmits(name: string, color: string, rest: seq<string>, pending: string)
    requires ':' !in name && ':' !in color
    requires ColorValues(color).Ok?
    ensures TagsFrom([name + ":" + color] + rest, pending) ==
              [Tag(pending + name, ColorValues(color).value)] + TagsFrom(rest, "")
  {
    var entries := [name + ":" + color] + rest;
    EntryPartsOfPair(name, color);
    TagsFromStep(entries, pending);
    assert entries[0] == name + ":" + color;
    assert entries[1..] == rest;
  }

  /** The stored text of highlight specifications, "name:colour" entries joined by commas. */
  function Encode(specs: seq<Tag>): seq<string>
    ensures |Encode(specs)| == |specs|
  {
    if specs == [] then [] else [specs[0].name + ":" + specs[0].color] + Encode(specs[1..])
  }

  predicate WellFormed(spec: Tag)
  {
    && ',' !in spec.name && ':' !in spec.name
    && ',' !in spec.color && ':' !in spec.color
    && ColorValues(spec.color).Ok?
  }

  /** The tags of well-formed specifications, colours normalised. */
  function Normalised(specs: seq<Tag>): seq<Tag>
    requires forall i :: 0 <= i < |specs| ==> WellFormed(specs[i])
  {
    if specs == [] then []
    else
      assert WellFormed(specs[0]);
      assert forall i :: 0 <= i < |specs[1..]| ==> specs[1..][i] == specs[i + 1];
      [Tag(specs[0].name, ColorValues(specs[0].color).value)] + Normalised(specs[1..])
  }

  lemma {:induction false} TagsFromEncoded(specs: seq<Tag>)
    requires forall i :: 0 <= i < |specs| ==> WellFormed(specs[i])
    ensures TagsFrom(Encode(specs), "") == Normalised(specs)
  {
    if specs != [] {
      TagsFromEncoded(specs[1..]);
      EntryEmits(specs[0].name, specs[0].color, Encode(specs[1..]), "");
      assert "" + specs[0].name == specs[0].name;
    }
  }

  /** Stored specifications are a non-empty string that splits back into its entries. */
  lemma {:induction false} EncodedSplits(specs: seq<Tag>)
    requires specs != []
    requires forall i :: 0 <= i < |specs| ==> WellFormed(specs[i])
    ensures |Join(Encode(specs), ",")| > 0
    ensures Split(Join(Encode(specs), ","), ',') == Encode(specs)
  {
    var entries := Encode(specs);
    EncodeEntries(specs);
    SplitJoin(entries, ',');
    assert ':' in entries[0];
    if |entries| > 1 {
      assert Join(entries, ",") == entries[0] + "," + Join(entries[1..], ",");
    }
  }

  /** Reading back stored well-formed specifications gives one tag per entry, in order. */
  lemma {:induction false} TagsOfEncoded(specs: seq<Tag>)
    requires forall i :: 0 <= i < |specs| ==> WellFormed(specs[i])
    ensures Tags(Join(Encode(specs), ",")) == Normalised(specs)
  {
    if specs != [] {
      TagsOfJoined(specs);
      TagsFromEncoded(specs);
    }
  }

  /** The stored string of non-empty specifications is read entry by entry. */
  lemma {:induction false} TagsOfJoined(specs: seq<Tag>)
    requires specs != []
    requires forall i :: 0 <= i < |specs| ==> WellFormed(specs[i])
    ensures Tags(Join(Encode(specs), ",")) == TagsFrom(Encode(specs), "")
  {
    EncodedSplits(specs);
  }

  /** A character in neither part nor the separator is not in the joined pair. */
  lemma AbsentFromPair(a: string, sep: char, b: string, c: char)
    requires c !in a && c !in b && c != sep
    ensures c !in a + [sep] + b
  {
    forall k | 0 <= k < |a + [sep] + b| ensures (a + [sep] + b)[k] != c {
      if k < |a| { assert (a + [sep] + b)[k] == a[k]; }
      else if k > |a| { assert (a + [sep] + b)[k] == b[k - |a| - 1]; }
    }
  }

  lemma {:induction false} EncodeEntries(specs: seq<Tag>)
    requires forall i :: 0 <= i < |specs| ==> WellFormed(specs[i])
    ensures forall i :: 0 <= i < |specs| ==>
              Encode(specs)[i] == specs[i].name + ":" + specs[i].color && ',' !in Encode(specs)[i] && ':' in Encode(specs)[i]
  {
    if specs != [] {
      var tail := specs[1..];
      forall i | 0 <= i < |tail| ensures WellFormed(tail[i]) {
        assert tail[i] == specs[i + 1];
      }
      EncodeEntries(tail);
      var e := specs[0].name + ":" + specs[0].color;
      assert WellFormed(specs[0]);
      assert e[|specs[0].name|] == ':';
      AbsentFromPair(specs[0].name, ':', specs[0].color, ',');
      assert ":" == [':'];
      assert Encode(specs) == [e] + Encode(tail);
      forall i | 0 < i < |specs|
        ensures Encode(specs)[i] == specs[i].name + ":" + specs[i].color && ',' !in Encode(specs)[i] && ':' in Encode(specs)[i]
      {
        assert Encode(specs)[i] == Encode(tail)[i - 1];
        assert specs[i] == tail[i - 1];
      }
    }
  }
}
