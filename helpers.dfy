/**
  Template helpers: the closing circumstances configured by the site
  administrator, the list of request statuses and their labels, the badge of
  open requests and whether the logged-in user follows a request.
 */
module Helpers {
  import opened Wrappers
  import opened Text
  import opened Db
  import opened Seqs

  // ---------------------------------------------------------------------------
  // Closing circumstances

  /** One configured way of closing a request: its label and the extra input it asks for. */
  datatype ClosingCircumstance = ClosingCircumstance(circumstance: string, condition: string)

  /** One line of the configuration, `circumstance|condition`: the stripped text before
      the first `|`, and the stripped second part only when the line has exactly two parts. */
  function ParseClosingCircumstance(line: string): (c: ClosingCircumstance)
    ensures Occurrences(line, '|') != 1 ==> c.condition == ""
  {
    var option := Split(line, '|');
    SplitLength(line, '|');
    ClosingCircumstance(Strip(option[0]), if |option| == 2 then Strip(option[1]) else "")
  }

  /** The circumstance never contains `|` and has no surrounding whitespace; so has the condition. */
  lemma ParsedCircumstanceIsClean(line: string)
    ensures var c := ParseClosingCircumstance(line);
      && '|' !in c.circumstance && Strip(c.circumstance) == c.circumstance
      && '|' !in c.condition && Strip(c.condition) == c.condition
  {
    var option := Split(line, '|');
    SplitPartsHaveNoSeparator(line, '|');
    assert option[0] in option;
    StripIdempotent(option[0]);
    StripKeepsAbsent(option[0], '|');
    if |option| == 2 {
      assert option[1] in option;
      StripIdempotent(option[1]);
      StripKeepsAbsent(option[1], '|');
    } else {
      StripOfTrimmed("");
    }
  }

  /** A line without `|` is all circumstance. */
  lemma CircumstanceWithoutCondition(line: string)
    requires '|' !in line
    ensures ParseClosingCircumstance(line) == ClosingCircumstance(Strip(line), "")
  {
    assert Occurrences(line, '|') == 0 by {
      NoOccurrences(line, '|');
    }
    SplitLength(line, '|');
    JoinSplit(line, '|');
  }

  /** A line `a|b` with `a` and `b` free of `|` gives the circumstance `a` and the
      condition `b`, each stripped. */
  lemma CircumstanceWithCondition(a: string, b: string)
    requires '|' !in a && '|' !in b
    ensures ParseClosingCircumstance(a + "|" + b) == ClosingCircumstance(Strip(a), Strip(b))
  {
    var line := a + "|" + b;
    var option := Split(line, '|');
    SplitOfPair(a, b);
    assert option == [a, b];
  }

  /** Stripping only removes characters. */
  lemma StripKeepsAbsent(s: string, c: char)
    requires c !in s
    ensures c !in Strip(s)
  {
    var i, j := StripIsTrimmedInfix(s);
    assert forall k :: 0 <= k < j - i ==> Strip(s)[k] == s[i + k];
  }

  lemma {:induction false} NoOccurrences(s: string, c: char)
    requires c !in s
    ensures Occurrences(s, c) == 0
  {
    if s != [] {
      assert c !in s[1..];
      NoOccurrences(s[1..], c);
    }
  }

  /** Splitting a text without separators gives that text alone. */
  lemma {:induction false} SplitOfPlain(s: string, sep: char)
    requires sep !in s
    ensures Split(s, sep) == [s]
  {
    NoOccurrences(s, sep);
    SplitLength(s, sep);
    JoinSplit(s, sep);
  }

  /** Splitting `a|b` gives `a` and `b`. */
  lemma {:induction false} SplitOfPair(a: string, b: string)
    requires '|' !in a && '|' !in b
    ensures Split(a + "|" + b, '|') == [a, b]
    decreases |a|
  {
    var line := a + "|" + b;
    if a == [] {
      assert line == "|" + b;
      assert line[0] == '|' && line[1..] == b;
      SplitOfPlain(b, '|');
    } else {
      assert line[0] == a[0] && line[1..] == a[1..] + "|" + b;
      assert '|' !in a[1..];
      SplitOfPair(a[1..], b);
      assert a == [a[0]] + a[1..];
    }
  }

  /** `get_closing_circumstances`: one entry for every line of the configured text,
      blank lines included; `configured` is `None` when the option is not set. */
  method GetClosingCircumstances(configured: Option<string>) returns (circumstances: seq<ClosingCircumstance>)
    ensures circumstances == Map(ParseClosingCircumstance, Split(configured.GetOr(""), '\n'))
  {
    var lines := Split(configured.GetOr(""), '\n');
    circumstances := [];
    for i := 0 to |lines|
      invariant circumstances == Map(ParseClosingCircumstance, lines[..i])
    {
      MapTake(ParseClosingCircumstance, lines, i);
      circumstances := circumstances + [ParseClosingCircumstance(lines[i])];
    }
    assert lines[..|lines|] == lines;
  }

  /** The entries follow the lines of the configured text: there is one more entry
      than there are line breaks, and the lines joined with line breaks give the text back. */
  lemma ClosingCircumstancesFollowLines(text: string)
    ensures |Split(text, '\n')| == Occurrences(text, '\n') + 1
    ensures Join(Split(text, '\n'), "\n") == text
  {
    SplitLength(text, '\n');
    JoinSplit(text, '\n');
  }

  /** Text that is not configured gives a single blank entry. */
  lemma NoClosingCircumstancesConfigured()
    ensures Split(None.GetOr(""), '\n') == [""]
    ensures ParseClosingCircumstance("") == ClosingCircumstance("", "")
  {
    SplitOfPlain("", '\n');
    CircumstanceWithoutCondition("");
  }

  // ---------------------------------------------------------------------------
  // Statuses

  /** An entry of `get_status_list`. */
  datatype StatusItem = StatusItem(value: string, text: string, labelClass: string)

  /** `get_status_list`. */
  const StatusList: seq<StatusItem> := [
    StatusItem("Assigned", "Assigned", "open"),
    StatusItem("Processing", "Processing", "open"),
    StatusItem("Finalised - Approved", "Finalised - Approved", "closed"),
    StatusItem("Finalised - Not Approved", "Finalised - Not Approved", "closed"),
    StatusItem("Assign to Internal Data Catalogue Support", "Assign to Internal Data Catalogue Support", "open")
  ]

  /** The status values, in the order of the list. */
  function StatusValues(): (vs: seq<string>)
    ensures |vs| == |StatusList|
    ensures forall i :: 0 <= i < |vs| ==> vs[i] == StatusList[i].value
  {
    seq(|StatusList|, i requires 0 <= i < |StatusList| => StatusList[i].value)
  }

  /** The five statuses are distinct, each is shown as its own value, and exactly the
      two final ones are labelled closed. */
  lemma StatusListShape()
    ensures |StatusList| == 5
    ensures forall i, j :: 0 <= i < j < |StatusList| ==> StatusList[i].value != StatusList[j].value
    ensures forall i :: 0 <= i < |StatusList| ==> StatusList[i].text == StatusList[i].value
    ensures forall i :: 0 <= i < |StatusList| ==>
      (StatusList[i].labelClass == "closed" <==>
       StatusList[i].value in {"Finalised - Approved", "Finalised - Not Approved"})
    ensures forall i :: 0 <= i < |StatusList| ==> StatusList[i].labelClass in {"open", "closed"}
    ensures Db.DefaultStatus in StatusValues()
  {
    assert StatusValues()[0] == Db.DefaultStatus;
  }

  /** What `get_status_label` returns: a status item, or the default label, which has no value. */
  datatype StatusLabel = StatusLabel(value: Option<string>, text: string, labelClass: string)

  function LabelOf(item: StatusItem): StatusLabel {
    StatusLabel(Some(item.value), item.text, item.labelClass)
  }

  const DefaultLabel: StatusLabel := StatusLabel(None, "Assigned", "open")

  /** `get_status_label`: the list entry of a known status, the default label otherwise. */
  method GetStatusLabel(status: string) returns (r: StatusLabel)
    ensures forall i :: 0 <= i < |StatusList| && StatusList[i].value == status ==> r == LabelOf(StatusList[i])
    ensures status !in StatusValues() ==> r == DefaultLabel
  {
    StatusListShape();
    for i := 0 to |StatusList|
      invariant forall k :: 0 <= k < i ==> StatusList[k].value != status
    {
      if StatusList[i].value == status {
        return LabelOf(StatusList[i]);
      }
    }
    return DefaultLabel;
  }

  // ---------------------------------------------------------------------------
  // Badge and following

  /** The badge snippet, or no badge (the empty text). */
  datatype Badge = NoBadge | BadgeSnippet(count: nat)

  /** `get_open_datarequests_badge`: the badge with the number of open requests, only when asked. */
  function OpenDatarequestsBadge(showBadge: bool, rs: seq<DataRequest>): (b: Badge)
    ensures b == NoBadge <==> !showBadge
    ensures b.BadgeSnippet? ==> b.count == OpenDatarequestsNumber(rs) && b.count <= |rs|
  {
    if showBadge then BadgeSnippet(OpenDatarequestsNumber(rs)) else NoBadge
  }

  /** `is_following_datarequest` for the logged-in user `userId`. */
  function IsFollowingDatarequest(fs: seq<Follower>, datarequestId: string, userId: string): (r: bool)
    ensures r <==> exists i :: 0 <= i < |fs| && fs[i].datarequestId == datarequestId && fs[i].userId == userId
  {
    var found := FollowersOf(fs, datarequestId, userId);
    if |found| > 0 then
      assert found[0] in fs;
      true
    else
      false
  }
}
