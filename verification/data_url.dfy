/** The data-URL handling both recording contexts share: the text a
    `FileReader.readAsDataURL` produces is split on commas and field 1
    (the base64 text after the `data:...;base64,` header) is kept. */
module DataUrl {
  import opened Nullable

  /** `s.split(',')`: the comma-free pieces of `s`, left to right. */
  function Split(s: string): (parts: seq<string>)
    ensures |parts| >= 1
    ensures forall i :: 0 <= i < |parts| ==> ',' !in parts[i]
    decreases |s|
  {
    if s == [] then [""]
    else
      var rest := Split(s[1..]);
      if s[0] == ',' then [""] + rest
      else [[s[0]] + rest[0]] + rest[1..]
  }

  /** `parts.join(',')`. */
  function Join(parts: seq<string>): string
    requires |parts| >= 1
  {
    if |parts| == 1 then parts[0] else parts[0] + "," + Join(parts[1..])
  }

  /** `dataUrl.split(',')[1]`, which is `undefined` when there is no comma. */
  function Payload(dataUrl: string): (r: Option<string>)
    ensures r.Some? <==> ',' in dataUrl
    ensures r.Some? ==> ',' !in r.value
  {
    var parts := Split(dataUrl);
    SplitCount(dataUrl);
    if |parts| > 1 then Some(parts[1]) else None
  }

  /** There is more than one piece exactly when the text holds a comma. */
  lemma {:induction false} SplitCount(s: string)
    ensures |Split(s)| > 1 <==> ',' in s
    decreases |s|
  {
    if s != [] {
      SplitCount(s[1..]);
      assert s == [s[0]] + s[1..];
    }
  }

  /** Joining the pieces with commas gives back the text. */
  lemma {:induction false} JoinSplit(s: string)
    ensures Join(Split(s)) == s
    decreases |s|
  {
    if s != [] {
      var rest := Split(s[1..]);
      JoinSplit(s[1..]);
      if s[0] == ',' {
        assert Split(s) == [""] + rest;
        assert Split(s)[1..] == rest;
      } else {
        var parts := Split(s);
        assert parts == [[s[0]] + rest[0]] + rest[1..];
        if |rest| == 1 {
          assert Join(parts) == [s[0]] + rest[0];
        } else {
          assert parts[1..] == rest[1..];
          assert Join(rest) == rest[0] + "," + Join(rest[1..]);
        }
      }
      assert s == [s[0]] + s[1..];
    }
  }

  /** A comma-free head followed by a comma splits off as the first piece. */
  lemma {:induction false} SplitAfterHead(head: string, tail: string)
    requires ',' !in head
    ensures Split(head + "," + tail) == [head] + Split(tail)
    decreases |head|
  {
    if head == [] {
      assert head + "," + tail == [','] + tail;
      assert (head + "," + tail)[1..] == tail;
    } else {
      SplitAfterHead(head[1..], tail);
      assert (head + "," + tail)[1..] == head[1..] + "," + tail;
      assert head == [head[0]] + head[1..];
    }
  }

  /** Comma-free text is a single piece. */
  lemma {:induction false} SplitNoComma(s: string)
    requires ',' !in s
    ensures Split(s) == [s]
    decreases |s|
  {
    if s != [] {
      SplitNoComma(s[1..]);
      assert s == [s[0]] + s[1..];
    }
  }

  /** Splitting comma-free pieces joined with commas gives the pieces back. */
  lemma {:induction false} SplitJoin(parts: seq<string>)
    requires |parts| >= 1
    requires forall i :: 0 <= i < |parts| ==> ',' !in parts[i]
    ensures Split(Join(parts)) == parts
    decreases |parts|
  {
    if |parts| == 1 {
      SplitNoComma(parts[0]);
    } else {
      SplitJoin(parts[1..]);
      SplitAfterHead(parts[0], Join(parts[1..]));
      assert parts == [parts[0]] + parts[1..];
    }
  }

  /** For a data URL `header,body` with a comma-free header and base64 body,
      field 1 is exactly the body. */
  lemma PayloadOfDataUrl(header: string, body: string)
    requires ',' !in header && ',' !in body
    ensures Payload(header + "," + body) == Some(body)
  {
    SplitAfterHead(header, body);
    SplitNoComma(body);
  }
}
