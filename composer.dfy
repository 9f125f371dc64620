/**
 * Message composition, shared word for word by both handlers: the fixed
 * sender and recipient, the subject line, and the HTML body in which every
 * line feed of the visitor's message becomes `<br>`. Nothing is escaped:
 * the fields are interpolated into the HTML exactly as submitted.
 */
module Composer {
  import opened Wrappers
  import opened JsValues

  const Sender := "Portfolio Contact <onboarding@resend.dev>"
  const Owner := "hk386579@gmail.com"
  const SubjectPrefix := "New Contact Form Message from "

  /** What V8 throws when `message.replace` is looked up on a value that is not a string. */
  const ReplaceTypeError := "message.replace is not a function"

  /** The arguments handed to the provider's `emails.send`. */
  datatype EmailRequest = EmailRequest(
    from: string,
    to: seq<string>,
    subject: string,
    html: string,
    replyTo: FieldValue)

  function CountNewlines(s: string): nat {
    if s == [] then 0 else (if s[0] == '\n' then 1 else 0) + CountNewlines(s[1..])
  }

  /**
   * `message.replace(/\n/g, '<br>')`: every line feed (and nothing else,
   * carriage returns included) becomes the four characters `<br>`.
   */
  function ReplaceNewlines(s: string): (r: string)
    ensures '\n' !in r
    ensures |r| == |s| + 3 * CountNewlines(s)
  {
    if s == [] then []
    else (if s[0] == '\n' then "<br>" else [s[0]]) + ReplaceNewlines(s[1..])
  }

  /** The rewrite works character by character, so it distributes over concatenation. */
  lemma {:induction false} ReplaceNewlinesAppend(a: string, b: string)
    ensures ReplaceNewlines(a + b) == ReplaceNewlines(a) + ReplaceNewlines(b)
  {
    if a != [] {
      assert (a + b)[0] == a[0];
      assert (a + b)[1..] == a[1..] + b;
      ReplaceNewlinesAppend(a[1..], b);
    } else {
      assert a + b == b;
    }
  }

  /** A string without line feeds is left exactly as it is. */
  lemma {:induction false} ReplaceNewlinesKeepsPlainText(s: string)
    requires '\n' !in s
    ensures ReplaceNewlines(s) == s
  {
    if s != [] {
      ReplaceNewlinesKeepsPlainText(s[1..]);
    }
  }

  /** One line break between two lines of plain text becomes one `<br>`. */
  lemma ReplaceSingleBreak(a: string, b: string)
    requires '\n' !in a && '\n' !in b
    ensures ReplaceNewlines(a + "\n" + b) == a + "<br>" + b
  {
    ReplaceNewlinesAppend(a + "\n", b);
    ReplaceNewlinesAppend(a, "\n");
    ReplaceNewlinesKeepsPlainText(a);
    ReplaceNewlinesKeepsPlainText(b);
  }

  lemma HiThereExample()
    ensures ReplaceNewlines("Hi\nthere") == "Hi<br>there"
  {
    ReplaceSingleBreak("Hi", "there");
    assert "Hi" + "\n" + "there" == "Hi\nthere";
    assert "Hi" + "<br>" + "there" == "Hi<br>there";
  }

  /** `s` has the four characters `<br>` starting at index `i`. */
  predicate BrAt(s: string, i: nat) {
    i + 4 <= |s| && s[i..i + 4] == "<br>"
  }

  ghost predicate ContainsBr(s: string) {
    exists i: nat :: BrAt(s, i)
  }

  /** The reverse rewrite, reading `<br>` back as a line feed, left to right. */
  function RestoreNewlines(r: string): string {
    if |r| >= 4 && r[..4] == "<br>" then "\n" + RestoreNewlines(r[4..])
    else if r == [] then []
    else [r[0]] + RestoreNewlines(r[1..])
  }

  /** A prefix of the rewritten text that has no '<' was copied from the original. */
  lemma {:induction false} ReplacedPrefix(t: string, p: string)
    requires '<' !in p && p <= ReplaceNewlines(t)
    ensures p <= t
  {
    if p != [] {
      var rt := ReplaceNewlines(t);
      assert t != [];
      assert rt[0] == p[0] && p[0] != '<';
      assert rt == (if t[0] == '\n' then "<br>" else [t[0]]) + ReplaceNewlines(t[1..]);
      assert t[0] != '\n';
      assert p[1..] <= ReplaceNewlines(t[1..]);
      ReplacedPrefix(t[1..], p[1..]);
    }
  }

  lemma BrAtStart(s: string)
    requires s != [] && s[0] == '<' && "br>" <= s[1..]
    ensures BrAt(s, 0)
  {
    assert s[..4] == [s[0]] + s[1..][..3];
  }

  /**
   * The rewrite loses nothing from a message that does not already contain
   * `<br>`: reading the breaks back gives the message again.
   */
  lemma {:induction false} RestoreAfterReplace(s: string)
    requires !ContainsBr(s)
    ensures RestoreNewlines(ReplaceNewlines(s)) == s
  {
    if s != [] {
      assert !ContainsBr(s[1..]) by {
        forall i: nat ensures BrAt(s[1..], i) ==> BrAt(s, i + 1) {
          if i + 5 <= |s| {
            assert s[1..][i..i + 4] == s[i + 1..i + 5];
          }
        }
      }
      var r := ReplaceNewlines(s);
      if s[0] == '\n' {
        assert r == "<br>" + ReplaceNewlines(s[1..]);
        assert r[..4] == "<br>" && r[4..] == ReplaceNewlines(s[1..]);
      } else {
        assert r == [s[0]] + ReplaceNewlines(s[1..]);
        if |r| >= 4 && r[..4] == "<br>" {
          assert s[0] == r[0] == '<';
          assert ReplaceNewlines(s[1..])[..3] == r[1..4] == "br>";
          ReplacedPrefix(s[1..], "br>");
          BrAtStart(s);
          assert false;
        }
        assert r[1..] == ReplaceNewlines(s[1..]);
      }
      RestoreAfterReplace(s[1..]);
    }
  }

  /**
   * Without the guard above the rewrite cannot be undone: a typed line
   * break and a typed `<br>` reach the mail client as the same HTML.
   */
  lemma ReplaceNewlinesNotInjective()
    ensures "\n" != "<br>"
    ensures ReplaceNewlines("\n") == ReplaceNewlines("<br>")
  {
    ReplaceNewlinesKeepsPlainText("<br>");
  }

  /** `x` occurs in `y` starting at index `i`. */
  predicate InfixAt(x: string, y: string, i: nat) {
    i + |x| <= |y| && y[i..i + |x|] == x
  }

  ghost predicate IsInfix(x: string, y: string) {
    exists i: nat :: InfixAt(x, y, i)
  }

  const HtmlOpen :=
    "\n"
    + "        <div style=\"font-family: Arial, sans-serif; max-width: 600px; margin: 0 auto;\">\n"
    + "          <h2 style=\"color: #333; border-bottom: 2px solid #6366f1; padding-bottom: 10px;\">\n"
    + "            New Contact Form Submission\n"
    + "          </h2>\n"
    + "          \n"
    + "          <div style=\"background: #f8fafc; padding: 20px; border-radius: 8px; margin: 20px 0;\">\n"
    + "            <p><strong>Name:</strong> "
  const HtmlAfterName :=
    "</p>\n"
    + "            <p><strong>Email:</strong> "
  const HtmlAfterEmail :=
    "</p>\n"
    + "            <p><strong>Message:</strong></p>\n"
    + "            <div style=\"background: white; padding: 15px; border-left: 4px solid #6366f1; margin-top: 10px;\">\n"
    + "              "
  const HtmlClose :=
    "\n"
    + "            </div>\n"
    + "          </div>\n"
    + "          \n"
    + "          <p style=\"color: #666; font-size: 14px;\">\n"
    + "            This message was sent from your portfolio contact form.\n"
    + "          </p>\n"
    + "        </div>\n"
    + "      "

  /** Each value spliced between fixed pieces of text occurs in the result. */
  lemma SplicedValuesOccur(p0: string, x: string, p1: string, y: string, p2: string, z: string, p3: string)
    ensures var h := p0 + x + p1 + y + p2 + z + p3;
      p0 <= h && IsInfix(x, h) && IsInfix(y, h) && IsInfix(z, h)
  {
    var h := p0 + x + p1 + y + p2 + z + p3;
    var n := |p0|;
    var e := n + |x| + |p1|;
    var m := e + |y| + |p2|;
    assert h[n..n + |x|] == x;
    assert h[e..e + |y|] == y;
    assert h[m..m + |z|] == z;
    assert InfixAt(x, h, n) && InfixAt(y, h, e) && InfixAt(z, h, m);
  }

  /**
   * The HTML template with the name, the email and the already rewritten
   * message filled in. It opens with the fixed heading, and each of the three
   * values appears in it verbatim: nothing is escaped.
   */
  function HtmlBody(name: string, email: string, messageHtml: string): (r: string)
    ensures HtmlOpen <= r
    ensures IsInfix(name, r) && IsInfix(email, r) && IsInfix(messageHtml, r)
  {
    SplicedValuesOccur(HtmlOpen, name, HtmlAfterName, email, HtmlAfterEmail, messageHtml, HtmlClose);
    HtmlOpen + name + HtmlAfterName + email + HtmlAfterEmail + messageHtml + HtmlClose
  }

  /**
   * The arguments of `resend.emails.send`. Evaluating them throws when the
   * message is not a string, because `message.replace` is then undefined.
   */
  function Compose(name: FieldValue, email: FieldValue, message: FieldValue): (r: Result<EmailRequest, string>)
    ensures r.Success? <==> message.Str?
    ensures r.Failure? ==> r.error == ReplaceTypeError
    ensures r.Success? ==>
      && r.value.from == Sender
      && r.value.to == [Owner]
      && r.value.replyTo == email
      && SubjectPrefix <= r.value.subject
      && r.value.subject[|SubjectPrefix|..] == ToText(name)
      && IsInfix(ToText(name), r.value.html)
      && IsInfix(ToText(email), r.value.html)
      && IsInfix(ReplaceNewlines(message.s), r.value.html)
  {
    match message
    case Str(text) =>
      var html := HtmlBody(ToText(name), ToText(email), ReplaceNewlines(text));
      Success(EmailRequest(Sender, [Owner], SubjectPrefix + ToText(name), html, email))
    case _ => Failure(ReplaceTypeError)
  }
}
