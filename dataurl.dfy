/** Taking the payload out of a data URL the way the editor page does it,
    `dataURL.split(",")[1]`, against the syntax of section 3 of RFC 2397:
    data:[<mediatype>][;base64],<data>. */
module DataUrl {
  import opened Optional

  /** String.prototype.split with a one-character separator: the pieces
      between separators, in order; an empty string splits into [""]. */
  function Split(s: string, sep: char): (parts: seq<string>)
    ensures |parts| >= 1
    ensures forall i :: 0 <= i < |parts| ==> sep !in parts[i]
    ensures Join(parts, sep) == s
  {
    if s == [] then [""]
    else
      var rest := Split(s[1..], sep);
      if s[0] == sep then
        assert [sep] + Join(rest, sep) == s;
        [""] + rest
      else
        var parts := [[s[0]] + rest[0]] + rest[1..];
        assert parts[1..] == rest[1..];
        assert Join(parts, sep) == s by {
          if |rest| > 1 {
            assert Join(rest, sep) == rest[0] + [sep] + Join(rest[1..], sep);
          }
        }
        parts
  }

  /** Array.prototype.join with a one-character separator. */
  function Join(parts: seq<string>, sep: char): string
    requires |parts| >= 1
  {
    if |parts| == 1 then parts[0] else parts[0] + [sep] + Join(parts[1..], sep)
  }

  /** Split undoes Join: a string splits into exactly the separator-free pieces
      it was joined from. */
  lemma {:induction false} SplitJoin(parts: seq<string>, sep: char)
    requires |parts| >= 1 && forall i :: 0 <= i < |parts| ==> sep !in parts[i]
    ensures Split(Join(parts, sep), sep) == parts
    decreases |parts|
  {
    if |parts| == 1 {
      SplitFree(parts[0], sep);
    } else {
      var tail := parts[1..];
      SplitJoin(tail, sep);
      SplitAfterHead(parts[0], Join(tail, sep), sep);
      assert parts == [parts[0]] + tail;
    }
  }

  /** A string without the separator is one piece. */
  lemma {:induction false} SplitFree(s: string, sep: char)
    requires sep !in s
    ensures Split(s, sep) == [s]
  {
    SplitFreePrefix(s, [], sep);
    assert s + [] == s;
  }

  /** A separator-free prefix sticks to the first piece of what follows it. */
  lemma {:induction false} SplitFreePrefix(a: string, b: string, sep: char)
    requires sep !in a
    ensures Split(a + b, sep) == [a + Split(b, sep)[0]] + Split(b, sep)[1..]
    decreases |a|
  {
    if a != [] {
      assert (a + b)[1..] == a[1..] + b;
      assert (a + b)[0] == a[0];
      SplitFreePrefix(a[1..], b, sep);
      assert [a[0]] + (a[1..] + Split(b, sep)[0]) == a + Split(b, sep)[0];
    } else {
      assert a + b == b;
      var parts := Split(b, sep);
      assert a + parts[0] == parts[0];
      assert parts == [parts[0]] + parts[1..];
    }
  }

  /** dataURLToBase64: element 1 of the split on ",", i.e. the text between the
      first comma and the next one (or the end); undefined without a comma. */
  function DataUrlToBase64(url: string): (r: Option<string>)
    ensures r.None? <==> ',' !in url
    ensures r.Some? ==> ',' !in r.value
  {
    var parts := Split(url, ',');
    if |parts| > 1 then Some(parts[1])
    else
      assert Join(parts, ',') == url;
      None
  }

  /** A separator-free head followed by the separator is one piece on its own. */
  lemma SplitAfterHead(head: string, rest: string, sep: char)
    requires sep !in head
    ensures Split(head + [sep] + rest, sep) == [head] + Split(rest, sep)
  {
    var after := [sep] + rest;
    SplitFreePrefix(head, after, sep);
    assert after[1..] == rest;
    assert Split(after, sep) == [""] + Split(rest, sep);
    assert head + "" == head;
    assert head + [sep] + rest == head + after;
  }

  /** A separator-free piece ends where the text does or where a separator starts. */
  lemma SplitFirstPiece(piece: string, tail: string, sep: char)
    requires sep !in piece && (tail == [] || tail[0] == sep)
    ensures Split(piece + tail, sep)[0] == piece
  {
    SplitFreePrefix(piece, tail, sep);
    if tail == [] {
      assert Split(tail, sep) == [""];
    } else {
      assert Split(tail, sep)[0] == "" by {
        assert tail == [sep] + tail[1..];
      }
    }
    assert piece + "" == piece;
  }

  /** The payload is exactly what follows the first comma up to the next one:
      for a comma-free head and payload, followed by nothing or by more text
      that starts with a comma. */
  lemma PayloadAfterFirstComma(head: string, payload: string, tail: string)
    requires ',' !in head && ',' !in payload && (tail == [] || tail[0] == ',')
    ensures DataUrlToBase64(head + [','] + payload + tail) == Some(payload)
  {
    var rest := payload + tail;
    SplitAfterHead(head, rest, ',');
    SplitFirstPiece(payload, tail, ',');
    assert head + [','] + payload + tail == head + [','] + rest;
  }

  /** Characters of the base64 alphabet of section 4 of RFC 4648, with the pad. */
  predicate IsBase64Char(c: char)
  {
    ('A' <= c <= 'Z') || ('a' <= c <= 'z') || ('0' <= c <= '9') || c == '+' || c == '/' || c == '='
  }

  /** For a base64 data URL whose media type has no comma, the whole payload
      comes back: base64 text never contains a comma. */
  lemma Base64DataUrlPayload(mediatype: string, payload: string)
    requires ',' !in mediatype
    requires forall i :: 0 <= i < |payload| ==> IsBase64Char(payload[i])
    ensures DataUrlToBase64("data:" + mediatype + ";base64," + payload) == Some(payload)
  {
    var head := "data:" + mediatype + ";base64";
    assert ',' !in head;
    forall i | 0 <= i < |payload|
      ensures payload[i] != ','
    {
      assert IsBase64Char(payload[i]);
    }
    PayloadAfterFirstComma(head, payload, []);
    assert head + [','] + payload + [] == "data:" + mediatype + ";base64," + payload;
  }

  /** The data URL the page builds from the service's reply. */
  function PngDataUrl(data: string): string
  {
    "data:image/png;base64," + data
  }

  /** Reading a comma-free payload back out of PngDataUrl returns it whole. */
  lemma PngDataUrlRoundTrip(data: string)
    requires ',' !in data
    ensures DataUrlToBase64(PngDataUrl(data)) == Some(data)
  {
    PayloadAfterFirstComma("data:image/png;base64", data, []);
    assert "data:image/png;base64" + [','] + data + [] == PngDataUrl(data);
  }

  /** A bare base64 payload handed over without its "data:...," header (here
      the start of a PNG file's base64) has no comma, so the result is undefined. */
  lemma NoCommaNoPayload()
    ensures DataUrlToBase64("iVBORw0KGgo") == None
  {
  }
}
