/** The machine's address in its network's subnet. */
module Addresses {
  import opened GridErrors

  function Split(s: string, c: char): (parts: seq<string>)
    ensures parts != []
  {
    if s == "" then [""]
    else
      var rest := Split(s[1..], c);
      if s[0] == c then [""] + rest else [[s[0]] + rest[0]] + rest[1..]
  }

  function Join(parts: seq<string>, c: char): string
    requires parts != []
  {
    if |parts| == 1 then parts[0] else parts[0] + [c] + Join(parts[1..], c)
  }

  lemma {:induction false} SplitInvertsJoin(parts: seq<string>, c: char)
    requires parts != [] && forall i :: 0 <= i < |parts| ==> c !in parts[i]
    ensures Split(Join(parts, c), c) == parts
    decreases |parts|, |parts[0]|
  {
    var text := Join(parts, c);
    if parts[0] != "" {
      var shorter := [parts[0][1..]] + parts[1..];
      assert parts[0] == [parts[0][0]] + parts[0][1..];
      assert forall x :: x in parts[0][1..] ==> x in parts[0];
      SplitInvertsJoin(shorter, c);
      assert text == [parts[0][0]] + Join(shorter, c);
      assert text[1..] == Join(shorter, c) && text[0] != c;
    } else if |parts| > 1 {
      SplitInvertsJoin(parts[1..], c);
      assert text == [c] + Join(parts[1..], c);
      assert text[1..] == Join(parts[1..], c);
    } else {
      assert parts == [""];
    }
  }

  lemma {:induction false} PartsLackSeparator(s: string, c: char)
    ensures forall i :: 0 <= i < |Split(s, c)| ==> c !in Split(s, c)[i]
  {
    if s != "" { PartsLackSeparator(s[1..], c); }
  }

  lemma JoinPrepends(parts: seq<string>, x: char, c: char)
    requires parts != []
    ensures Join([[x] + parts[0]] + parts[1..], c) == [x] + Join(parts, c)
    ensures Join([""] + parts, c) == [c] + Join(parts, c)
  {
    assert ([[x] + parts[0]] + parts[1..])[1..] == parts[1..];
    assert ([""] + parts)[1..] == parts;
  }

  lemma {:induction false} JoinInvertsSplit(s: string, c: char)
    ensures Join(Split(s, c), c) == s
  {
    if s != "" {
      JoinInvertsSplit(s[1..], c);
      JoinPrepends(Split(s[1..], c), s[0], c);
      hide Join;
      assert s == [s[0]] + s[1..];
    }
  }

  function BeforeSlash(s: string): Option<string> {
    var parts := Split(s, '/');
    if |parts| == 1 then None else Some(parts[0])
  }

  /** `vm_ip_from_subnet`: host five of the subnet's first three labels. */
  function VmIpFromSubnet(subnet: string): Result<string> {
    var base := BeforeSlash(subnet);
    if base.None? then Err(Validation("invalid subnet: " + subnet))
    else
      var labels := Split(base.value, '.');
      if |labels| != 4 then Err(Validation("invalid subnet: " + subnet))
      else Ok(labels[0] + "." + labels[1] + "." + labels[2] + ".5")
  }

  ghost predicate FourLabels(labels: seq<string>, tail: seq<string>) {
    && |labels| == 4 && (forall i :: 0 <= i < 4 ==> '.' !in labels[i] && '/' !in labels[i])
    && tail != [] && (forall i :: 0 <= i < |tail| ==> '/' !in tail[i])
  }

  /** The texts `a.b.c.d/rest`, whose labels hold no dot or slash, are accepted, ... */
  lemma AcceptsFourLabels(labels: seq<string>, tail: seq<string>)
    requires FourLabels(labels, tail)
    ensures VmIpFromSubnet(Join([Join(labels, '.')] + tail, '/'))
         == Ok(labels[0] + "." + labels[1] + "." + labels[2] + ".5")
  {
    LabelsLackSlash(labels);
    SplitInvertsJoin(labels, '.');
    SplitInvertsJoin([Join(labels, '.')] + tail, '/');
  }

  /** ... and no others. */
  lemma AcceptsOnlyFourLabels(subnet: string) returns (labels: seq<string>, tail: seq<string>)
    requires VmIpFromSubnet(subnet).Ok?
    ensures FourLabels(labels, tail) && subnet == Join([Join(labels, '.')] + tail, '/')
  {
    var parts := Split(subnet, '/');
    labels, tail := Split(parts[0], '.'), parts[1..];
    JoinInvertsSplit(subnet, '/');
    JoinInvertsSplit(parts[0], '.');
    PartsLackSeparator(subnet, '/');
    PartsLackSeparator(parts[0], '.');
    SlashlessLabels(labels);
    assert parts == [parts[0]] + tail;
  }

  lemma {:induction false} LabelsLackSlash(labels: seq<string>)
    requires labels != [] && forall i :: 0 <= i < |labels| ==> '/' !in labels[i]
    ensures '/' !in Join(labels, '.')
  {
    if |labels| > 1 { LabelsLackSlash(labels[1..]); }
  }

  lemma {:induction false} SlashlessLabels(labels: seq<string>)
    requires labels != [] && '/' !in Join(labels, '.')
    ensures forall i :: 0 <= i < |labels| ==> '/' !in labels[i]
  {
    var text := Join(labels, '.');
    if |labels| > 1 {
      assert text == labels[0] + (['.'] + Join(labels[1..], '.'));
      assert forall x :: x in labels[0] ==> x in text;
      assert forall x :: x in Join(labels[1..], '.') ==> x in text;
      SlashlessLabels(labels[1..]);
    }
  }
}
