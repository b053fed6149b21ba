/** Interactive collection of the subject-name attributes from standard input
    (business/certname.go). Standard input is the sequence of lines the operator
    types; its end is end-of-file. */
module CertName {
  import opened Base
  import opened X509
  import opened Text

  /** The name attributes a prompt can write to. */
  datatype NameField = Country | Organization | OrganizationalUnit | StreetAddress | Locality | Province | PostalCode

  function SetField(name: Name, field: NameField, value: seq<string>): Name {
    match field
    case Country => name.(country := value)
    case Organization => name.(organization := value)
    case OrganizationalUnit => name.(organizationalUnit := value)
    case StreetAddress => name.(streetAddress := value)
    case Locality => name.(locality := value)
    case Province => name.(province := value)
    case PostalCode => name.(postalCode := value)
  }

  /** The attribute each of the seven prompts of a round writes to, in prompt order:
      the "Province" and "Postal Code" prompts write to Locality as well. */
  const PromptTargets: seq<NameField> :=
    [Country, Organization, OrganizationalUnit, StreetAddress, Locality, Locality, Locality]

  /** The name once the first |answers| prompts of a round have been answered. */
  function Fill(name: Name, answers: seq<string>): Name
    requires |answers| <= |PromptTargets|
    decreases |answers|
  {
    if answers == [] then name
    else
      var k := |answers| - 1;
      SetField(Fill(name, answers[..k]), PromptTargets[k], [answers[k]])
  }

  /** A confirmation answer that ends the prompt loop. */
  predicate IsYes(answer: string) {
    ToLower(answer) == "y"
  }

  /** The outcome of the prompt loop started with `name` on the remaining input
      `lines`: seven answers, then a confirmation; anything but "y" starts a new
      round over the same name. */
  function Prompt(name: Name, lines: seq<string>): (Name, Option<Error>)
    decreases |lines|
  {
    if |lines| < 7 then (Fill(name, lines), Some(UserCancelled))
    else
      var filled := Fill(name, lines[..7]);
      if |lines| == 7 then (filled, Some(UserCancelled))
      else if IsYes(lines[7]) then (filled, None)
      else Prompt(filled, lines[8..])
  }

  /** The confirmation of round `k` is present and is a "y". */
  predicate ConfirmedAt(lines: seq<string>, k: nat) {
    8 * k + 7 < |lines| && IsYes(lines[8 * k + 7])
  }

  /** Round `k` is the first one confirmed. */
  predicate FirstConfirmed(lines: seq<string>, k: nat) {
    ConfirmedAt(lines, k) && forall j: nat :: j < k ==> !ConfirmedAt(lines, j)
  }

  /** The name after round `k`, started from `name0`, answered with the lines of that round. */
  function AfterRound(name0: Name, lines: seq<string>, k: nat): Name
    requires 8 * k + 7 <= |lines|
  {
    var b := 8 * k;
    name0.(country := [lines[b]], organization := [lines[b + 1]], organizationalUnit := [lines[b + 2]],
           streetAddress := [lines[b + 3]], locality := [lines[b + 6]])
  }

  /** A complete round sets Country, Organization, Organizational Unit and Street
      Address to the first four answers and Locality to the seventh (the Postal Code
      answer); every other attribute keeps its value. */
  lemma FullRound(name: Name, answers: seq<string>)
    requires |answers| == 7
    ensures Fill(name, answers) == name.(country := [answers[0]], organization := [answers[1]],
      organizationalUnit := [answers[2]], streetAddress := [answers[3]], locality := [answers[6]])
  {
    var n1 := name.(country := [answers[0]]);
    var n2 := n1.(organization := [answers[1]]);
    var n3 := n2.(organizationalUnit := [answers[2]]);
    var n4 := n3.(streetAddress := [answers[3]]);
    var n5 := n4.(locality := [answers[4]]);
    var n6 := n5.(locality := [answers[5]]);
    assert answers[..1][..0] == [];
    assert Fill(name, answers[..1]) == n1;
    assert answers[..2][..1] == answers[..1];
    assert Fill(name, answers[..2]) == n2;
    assert answers[..3][..2] == answers[..2];
    assert Fill(name, answers[..3]) == n3;
    assert answers[..4][..3] == answers[..3];
    assert Fill(name, answers[..4]) == n4;
    assert answers[..5][..4] == answers[..4];
    assert Fill(name, answers[..5]) == n5;
    assert answers[..6][..5] == answers[..5];
    assert Fill(name, answers[..6]) == n6;
    assert answers[..6] == answers[..|answers| - 1];
  }

  /** The loop ends without error exactly when some round's confirmation is a "y";
      otherwise input ran out and the error is ErrUserCancelled. */
  lemma {:induction false} PromptOutcome(name: Name, lines: seq<string>)
    ensures Prompt(name, lines).1.None? <==> exists k: nat :: ConfirmedAt(lines, k)
    ensures Prompt(name, lines).1.Some? ==> Prompt(name, lines).1 == Some(UserCancelled)
    decreases |lines|
  {
    if |lines| < 8 {
      forall k: nat ensures !ConfirmedAt(lines, k) {
      }
    } else if !IsYes(lines[7]) {
      var filled := Fill(name, lines[..7]);
      var rest := lines[8..];
      PromptOutcome(filled, rest);
      forall k: nat | ConfirmedAt(lines, k) ensures k >= 1 && ConfirmedAt(rest, k - 1) {
        assert rest[8 * (k - 1) + 7] == lines[8 * k + 7];
      }
      forall k: nat | ConfirmedAt(rest, k) ensures ConfirmedAt(lines, k + 1) {
        assert rest[8 * k + 7] == lines[8 * (k + 1) + 7];
      }
    } else {
      assert ConfirmedAt(lines, 0);
    }
  }

  /** A round that is not confirmed shifts the first confirmed round by one. */
  lemma FirstConfirmedShift(lines: seq<string>, k: nat)
    requires |lines| >= 8 && !IsYes(lines[7]) && FirstConfirmed(lines[8..], k)
    ensures FirstConfirmed(lines, k + 1)
  {
    var rest := lines[8..];
    assert rest[8 * k + 7] == lines[8 * (k + 1) + 7];
    forall j: nat | j < k + 1 ensures !ConfirmedAt(lines, j) {
      if j > 0 {
        assert !ConfirmedAt(rest, j - 1);
        assert rest[8 * (j - 1) + 7] == lines[8 * j + 7];
      }
    }
  }

  /** A later round overwrites every attribute the first round wrote. */
  lemma AfterRoundShift(name: Name, lines: seq<string>, k: nat)
    requires |lines| >= 8 && 8 * k + 7 <= |lines| - 8
    ensures AfterRound(Fill(name, lines[..7]), lines[8..], k) == AfterRound(name, lines, k + 1)
  {
    FullRound(name, lines[..7]);
    var rest := lines[8..];
    var b := 8 * (k + 1);
    assert rest[8 * k] == lines[b] && rest[8 * k + 1] == lines[b + 1] && rest[8 * k + 2] == lines[b + 2];
    assert rest[8 * k + 3] == lines[b + 3] && rest[8 * k + 6] == lines[b + 6];
  }

  /** A successful loop ends at the first confirmed round, and the name holds that
      round's answers: Locality is the Postal Code answer, and Province and Postal
      Code are never written. */
  lemma {:induction false} PromptSuccess(name: Name, lines: seq<string>)
    requires Prompt(name, lines).1.None?
    ensures exists k: nat ::
      FirstConfirmed(lines, k) && 8 * k + 7 <= |lines| && Prompt(name, lines).0 == AfterRound(name, lines, k)
    decreases |lines|
  {
    if IsYes(lines[7]) {
      FullRound(name, lines[..7]);
      assert FirstConfirmed(lines, 0);
      assert Prompt(name, lines).0 == AfterRound(name, lines, 0);
    } else {
      var filled := Fill(name, lines[..7]);
      var rest := lines[8..];
      PromptSuccess(filled, rest);
      var k: nat :| FirstConfirmed(rest, k) && 8 * k + 7 <= |rest| && Prompt(filled, rest).0 == AfterRound(filled, rest, k);
      FirstConfirmedShift(lines, k);
      AfterRoundShift(name, lines, k);
      assert Prompt(name, lines).0 == AfterRound(name, lines, k + 1);
    }
  }

  /** valOrEmpty. */
  function ValOrEmpty(field: seq<string>): (r: string)
    ensures field == [] ==> r == ""
    ensures field != [] ==> r == field[0]
  {
    if |field| == 0 then "" else field[0]
  }

  /** The summary shown for confirmation after a full round started from a name with
      no Province or Postal Code: Locality shows the Postal Code answer, Province and
      Postal Code show nothing. */
  lemma ConfirmationSummary(name: Name, answers: seq<string>)
    requires |answers| == 7 && name.province == [] && name.postalCode == []
    ensures ValOrEmpty(Fill(name, answers).locality) == answers[6]
    ensures ValOrEmpty(Fill(name, answers).country) == answers[0]
    ensures ValOrEmpty(Fill(name, answers).province) == "" && ValOrEmpty(Fill(name, answers).postalCode) == ""
  {
    FullRound(name, answers);
  }

  /** nameFieldScanner: a line scanner over standard input with a latch that, once
      set by a failed read, turns every later ScanField into a no-op. */
  class NameFieldScanner {
    var lines: seq<string>   // the input not read yet
    var text: string         // Scanner.Text(): the line the last Scan read
    var scanCancelled: bool

    constructor (stdin: seq<string>)
      ensures lines == stdin && text == "" && !scanCancelled
    {
      lines, text, scanCancelled := stdin, "", false;
    }

    /** bufio.Scanner.Scan: reads the next line, or reports end-of-file. */
    method Scan() returns (ok: bool)
      modifies this
      ensures ok <==> old(lines) != []
      ensures ok ==> text == old(lines)[0] && lines == old(lines)[1..]
      ensures !ok ==> lines == old(lines) && text == ""
      ensures scanCancelled == old(scanCancelled)
    {
      if lines == [] {
        text := "";
        return false;
      }
      text, lines := lines[0], lines[1..];
      return true;
    }

    /** ScanField: the target attribute is passed in as `field` and its new value is
        `updated`, which the caller writes back, as the Go code writes through the
        pointer. */
    method ScanField(field: seq<string>) returns (updated: seq<string>)
      modifies this
      ensures old(scanCancelled) ==> scanCancelled && lines == old(lines) && text == old(text) && updated == field
      ensures !old(scanCancelled) && old(lines) == [] ==> scanCancelled && lines == [] && updated == field
      ensures !old(scanCancelled) && old(lines) != [] ==>
        !scanCancelled && text == old(lines)[0] && lines == old(lines)[1..] && updated == [old(lines)[0]]
    {
      if scanCancelled {
        return field;
      }
      var ok := Scan();
      scanCancelled := !ok;
      updated := field;
      if !scanCancelled {
        updated := [text];
      }
    }
  }

  /** Where a round stands after `k` of its prompts: if the round's input `before`
      held at least `k` lines, they were read and answered; otherwise the input ran
      out, the latch is set and every available line was used. */
  ghost predicate RoundState(start: Name, before: seq<string>, k: nat, name: Name, s: NameFieldScanner)
    requires k <= |PromptTargets|
    reads s
  {
    if k <= |before| then !s.scanCancelled && s.lines == before[k..] && name == Fill(start, before[..k])
    else s.scanCancelled && s.lines == [] && name == Fill(start, before)
  }

  lemma RoundStep(start: Name, before: seq<string>, k: nat)
    requires k < |PromptTargets| && k < |before|
    ensures Fill(start, before[..k + 1]) == SetField(Fill(start, before[..k]), PromptTargets[k], [before[k]])
  {
    assert before[..k + 1][..k] == before[..k];
  }

  /** The seven prompts of one round (lines 24-30): each answer goes to its target
      attribute until input runs out, after which the latch makes the remaining
      prompts no-ops. */
  method ScanNameFields(scanner: NameFieldScanner, name: Name) returns (filled: Name)
    requires !scanner.scanCancelled
    modifies scanner
    ensures |old(scanner.lines)| >= 7 ==>
      !scanner.scanCancelled && scanner.lines == old(scanner.lines)[7..] && filled == Fill(name, old(scanner.lines)[..7])
    ensures |old(scanner.lines)| < 7 ==>
      scanner.scanCancelled && scanner.lines == [] && filled == Fill(name, old(scanner.lines))
  {
    ghost var before := scanner.lines;
    filled := name;
    var answer: seq<string>;
    if 0 < |before| { RoundStep(name, before, 0); }
    answer := scanner.ScanField(filled.country);
    filled := filled.(country := answer);
    assert RoundState(name, before, 1, filled, scanner);
    if 1 < |before| { RoundStep(name, before, 1); }
    answer := scanner.ScanField(filled.organization);
    filled := filled.(organization := answer);
    assert RoundState(name, before, 2, filled, scanner);
    if 2 < |before| { RoundStep(name, before, 2); }
    answer := scanner.ScanField(filled.organizationalUnit);
    filled := filled.(organizationalUnit := answer);
    assert RoundState(name, before, 3, filled, scanner);
    if 3 < |before| { RoundStep(name, before, 3); }
    answer := scanner.ScanField(filled.streetAddress);
    filled := filled.(streetAddress := answer);
    assert RoundState(name, before, 4, filled, scanner);
    if 4 < |before| { RoundStep(name, before, 4); }
    answer := scanner.ScanField(filled.locality);    // "Locality"
    filled := filled.(locality := answer);
    assert RoundState(name, before, 5, filled, scanner);
    if 5 < |before| { RoundStep(name, before, 5); }
    answer := scanner.ScanField(filled.locality);    // "Province"
    filled := filled.(locality := answer);
    assert RoundState(name, before, 6, filled, scanner);
    if 6 < |before| { RoundStep(name, before, 6); }
    answer := scanner.ScanField(filled.locality);    // "Postal Code"
    filled := filled.(locality := answer);
    assert RoundState(name, before, 7, filled, scanner);
  }

  /** PromptCertNameDetails, reading the lines of `stdin`. */
  method PromptCertNameDetails(stdin: seq<string>) returns (name: Name, err: Option<Error>)
    ensures (name, err) == Prompt(EmptyName, stdin)
    ensures err.None? <==> exists k: nat :: ConfirmedAt(stdin, k)
    ensures err.Some? ==> err == Some(UserCancelled)
    ensures err.None? ==> name.province == [] && name.postalCode == []
  {
    PromptOutcome(EmptyName, stdin);
    if Prompt(EmptyName, stdin).1.None? {
      PromptSuccess(EmptyName, stdin);
    }
    name := EmptyName;
    var scanner := new NameFieldScanner(stdin);
    var continuePrompt := true;
    while continuePrompt
      invariant !scanner.scanCancelled
      invariant continuePrompt ==> Prompt(name, scanner.lines) == Prompt(EmptyName, stdin)
      invariant !continuePrompt ==> (name, None) == Prompt(EmptyName, stdin)
      decreases |scanner.lines|, continuePrompt
    {
      ghost var before := scanner.lines;
      name := ScanNameFields(scanner, name);
      if scanner.scanCancelled {
        return name, Some(UserCancelled);
      }
      var scanned := scanner.Scan();
      if !scanned {
        return name, Some(UserCancelled);
      }
      assert scanner.lines == before[8..];
      if ToLower(scanner.text) == "y" {
        continuePrompt := false;
      }
    }
    err := None;
  }
}
