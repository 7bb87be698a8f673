/**
 * The domain record of EmailManager.Lab/Models/Email.cs.
 *
 * The C# class has six properties with private setters that only its constructor
 * assigns, so no property can be reassigned: an `Email` is a datatype whose constructor
 * stores each of its six arguments unchanged. The `To` and `Cc` lists are references to
 * arrays that their creator can still change; that aliasing is not modelled.
 */
module EmailModel {

  datatype Email = Email(
    from: string,
    to: seq<string>,
    cc: seq<string>,
    subject: string,
    textBody: string,
    htmlBody: string)

  /** `StringBuilder.AppendLine(text)`: the text followed by the platform newline. */
  function AppendLine(text: string, newline: string): string
  {
    text + newline
  }

  /**
   * `Email.ToString()`: five `AppendLine` calls on one builder.
   * `newline` stands for the platform newline that `AppendLine` adds, and `listText`
   * for the text .NET gives an address list inside an interpolated string (the list
   * type's own `ToString`); both are opaque here.
   */
  function Render(e: Email, newline: string, listText: seq<string> -> string): (r: string)
    ensures |r| == 30 + |e.from| + |listText(e.to)| + |listText(e.cc)| + |e.subject| + |e.textBody| + 5 * |newline|
    // the first line is "From: " and the sender, verbatim
    ensures r[..6] == "From: " && r[6..6 + |e.from|] == e.from
    ensures r[6 + |e.from|..6 + |e.from| + |newline|] == newline
    // the last line is "Body: ", a line feed and the text body, verbatim
    ensures r[|r| - |newline| - |e.textBody| - 7..] == "Body: \n" + e.textBody + newline
  {
    AppendLine("From: " + e.from, newline)
    + AppendLine("To: " + listText(e.to), newline)
    + AppendLine("Cc: " + listText(e.cc), newline)
    + AppendLine("Subject: " + e.subject, newline)
    + AppendLine("Body: \n" + e.textBody, newline)
  }

  /** Lines joined the way a `StringBuilder` fed with `AppendLine` joins them. */
  function Unlines(lines: seq<string>, newline: string): (r: string)
    // every line contributes at least its newline, and a non-empty text ends with one
    ensures |r| >= |lines| * |newline|
    ensures lines != [] ==> |newline| <= |r| && r[|r| - |newline|..] == newline
  {
    if lines == [] then [] else AppendLine(lines[0], newline) + Unlines(lines[1..], newline)
  }

  /** Where the "Subject: " label starts in `Render(e, newline, listText)`. */
  function SubjectOffset(e: Email, newline: string, listText: seq<string> -> string): nat
  {
    6 + |e.from| + 4 + |listText(e.to)| + 4 + |listText(e.cc)| + 3 * |newline|
  }

  /** Joining two runs of lines is joining each: a builder fed the lines of `a` and then of `b`. */
  lemma {:induction false} UnlinesConcat(a: seq<string>, b: seq<string>, newline: string)
    ensures Unlines(a + b, newline) == Unlines(a, newline) + Unlines(b, newline)
    decreases |a|
  {
    if a == [] {
      assert a + b == b;
    } else {
      assert (a + b)[0] == a[0];
      assert (a + b)[1..] == a[1..] + b;
      UnlinesConcat(a[1..], b, newline);
    }
  }

  /** One `AppendLine` call: the line followed by the newline. */
  lemma UnlinesSingle(line: string, newline: string)
    ensures Unlines([line], newline) == line + newline
  {
    assert [line][1..] == [];
  }

  /** The rendering is exactly five labelled lines, in the order From, To, Cc, Subject, Body. */
  lemma {:induction false} RenderIsFiveLines(e: Email, newline: string, listText: seq<string> -> string)
    ensures Render(e, newline, listText) == Unlines(
      ["From: " + e.from,
       "To: " + listText(e.to),
       "Cc: " + listText(e.cc),
       "Subject: " + e.subject,
       "Body: \n" + e.textBody], newline)
  {
    var ls := ["From: " + e.from, "To: " + listText(e.to), "Cc: " + listText(e.cc),
               "Subject: " + e.subject, "Body: \n" + e.textBody];
    assert ls[1..][1..][1..][1..][1..] == [];
    assert Unlines(ls[1..][1..][1..][1..], newline) == AppendLine(ls[4], newline);
    assert Unlines(ls[1..][1..][1..], newline) == AppendLine(ls[3], newline) + AppendLine(ls[4], newline);
    assert Unlines(ls[1..][1..], newline)
      == AppendLine(ls[2], newline) + (AppendLine(ls[3], newline) + AppendLine(ls[4], newline));
  }

  /** The subject appears verbatim right after its label, and is followed by a newline. */
  lemma SubjectVerbatim(e: Email, newline: string, listText: seq<string> -> string)
    ensures var r, p := Render(e, newline, listText), SubjectOffset(e, newline, listText);
      p + 9 + |e.subject| + |newline| <= |r|
      && r[p..p + 9] == "Subject: "
      && r[p + 9..p + 9 + |e.subject|] == e.subject
      && r[p + 9 + |e.subject|..p + 9 + |e.subject| + |newline|] == newline
  {
    var head := AppendLine("From: " + e.from, newline)
      + AppendLine("To: " + listText(e.to), newline)
      + AppendLine("Cc: " + listText(e.cc), newline);
    var line := AppendLine("Subject: " + e.subject, newline);
    var tail := AppendLine("Body: \n" + e.textBody, newline);
    assert Render(e, newline, listText) == head + line + tail;
    assert |head| == SubjectOffset(e, newline, listText);
  }

  /** The HTML body never reaches the rendering: changing it changes nothing. */
  lemma RenderIgnoresHtmlBody(e: Email, html: string, newline: string, listText: seq<string> -> string)
    ensures Render(e.(htmlBody := html), newline, listText) == Render(e, newline, listText)
  {
  }
}
