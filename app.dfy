/** The string helpers of the deployment script `app.py`: its hyphen-based
    `to_camel` and the two names it composes from the service name. The rest of
    that script declares cloud resources and is not modelled. */
module App {
  import opened PyText

  /** `to_camel` of app.py: split the name on '-', title-case every piece (the
      first one too) and join the pieces with nothing between them. */
  function ToCamel(name: string): (r: string)
    ensures '-' !in r
    ensures |r| == |name| - Count(name, '-')
  {
    ToCamelIsTitleWithoutHyphens(name);
    Concat(TitleEach(Split(name, '-')))
  }

  /** The same result by a second route: title-case the whole name and drop its
      hyphens, since title-casing restarts after every hyphen anyway. */
  lemma ToCamelIsTitleWithoutHyphens(name: string)
    ensures Concat(TitleEach(Split(name, '-'))) == Remove(Title(name), '-')
    ensures |Remove(Title(name), '-')| == |name| - Count(name, '-')
  {
    ConcatTitleEach(Split(name, '-'));
    TitleOfPieces(name, '-', false);
    CountTitle(name, '-', false);
  }

  /** A name without hyphens is one piece, title-cased whole. */
  lemma ToCamelWithoutHyphens(name: string)
    requires '-' !in name
    ensures ToCamel(name) == Title(name)
  {
    SplitWithoutSeparator(name, '-');
    ConcatTitleEach([name]);
  }

  /** The first piece is title-cased as well: a name starting with a lower-case
      letter comes out starting with its upper-case form. */
  lemma ToCamelCapitalisesFirstPiece(name: string)
    requires name != [] && IsLower(name[0])
    ensures ToCamel(name) != [] && ToCamel(name)[0] == Upper(name[0])
  {
    ToCamelIsTitleWithoutHyphens(name);
    var t := Title(name);
    assert t[0] == Upper(name[0]) && t[0] != '-';
    assert t == [t[0]] + t[1..];
    RemoveAppend([t[0]], t[1..], '-');
  }

  /** Joining hyphen-free pieces with '-' and camel-casing the result gives the
      title-cased pieces side by side. */
  lemma {:induction false} ToCamelOfJoined(parts: seq<string>)
    requires parts != []
    requires forall k :: 0 <= k < |parts| ==> '-' !in parts[k]
    ensures ToCamel(JoinWith(parts, '-')) == Concat(TitleEach(parts))
  {
    SplitJoinWith(parts, '-');
  }

  /** `f"{service_name}-{region}-{stage}"` */
  function StackName(serviceName: string, region: string, stage: string): (r: string)
    ensures |r| == |serviceName| + |region| + |stage| + 2
    ensures r[..|serviceName|] == serviceName && r[|serviceName|] == '-'
    ensures r[|r| - |stage|..] == stage && r[|r| - |stage| - 1] == '-'
  {
    serviceName + "-" + region + "-" + stage
  }

  /** Splitting the stack name on '-' yields the pieces of its three parts in
      order; when none of them holds a hyphen, exactly the three parts. */
  lemma StackNameSplits(serviceName: string, region: string, stage: string)
    ensures Split(StackName(serviceName, region, stage), '-')
      == Split(serviceName, '-') + Split(region, '-') + Split(stage, '-')
    ensures '-' !in serviceName && '-' !in region && '-' !in stage ==>
      Split(StackName(serviceName, region, stage), '-') == [serviceName, region, stage]
  {
    SplitAround(serviceName + "-" + region, stage, '-');
    SplitAround(serviceName, region, '-');
    assert StackName(serviceName, region, stage) == (serviceName + ['-'] + region) + ['-'] + stage;
    if '-' !in serviceName && '-' !in region && '-' !in stage {
      SplitWithoutSeparator(serviceName, '-');
      SplitWithoutSeparator(region, '-');
      SplitWithoutSeparator(stage, '-');
    }
  }

  /** The AppSync data source name: `to_camel(service_name) + "Lambda"`. */
  function DataSourceName(serviceName: string): (r: string)
    ensures |r| == |serviceName| - Count(serviceName, '-') + 6
    ensures '-' !in r
    ensures |r| >= 6 && r[|r| - 6..] == "Lambda"
  {
    ToCamel(serviceName) + "Lambda"
  }
}
