/**
 * What `compare_main.py` hands to `compare_analyzed_checkpoints`: the name
 * of the analysis job whose checkpoints are compared, and the comparison
 * arguments picked out of the loaded argument dictionary.
 */
module CompareMain {
  import opened PyBuiltins
  import opened CompareKeys
  import ProgrammingTools

  const AnalyzePrefix: string := "analyze_"

  /** `'analyze_{}'.format(name)`: the name with the analysis prefix in front. */
  function AnalysisJobName(name: string): (job: string)
    ensures |job| == |AnalyzePrefix| + |name|
    ensures AnalyzePrefix <= job && job[|AnalyzePrefix|..] == name
  {
    AnalyzePrefix + name
  }

  /** The two values the script computes before handing them on. */
  datatype CompareCall<V> = CompareCall(jobName: string, compareArgs: map<string, V>)

  function CompareRequest<V>(name: string, allArgs: seq<(string, V)>): CompareCall<V>
  {
    CompareCall(AnalysisJobName(name), CompareArgs(allArgs))
  }

  /** Different names give different analysis jobs. */
  lemma {:induction false} AnalysisJobNameInjective(a: string, b: string)
    requires AnalysisJobName(a) == AnalysisJobName(b)
    ensures a == b
  {
    assert a == AnalysisJobName(a)[|AnalyzePrefix|..];
  }

  /**
   * The configuration text the parameter parser reads from a key of the
   * analysis job, taking name as its root, is what follows the job name,
   * provided that text does not itself repeat the job name.
   */
  lemma {:induction false} JobNameReadBack(name: string, config: string)
    requires !Contains(config, AnalysisJobName(name))
    ensures ProgrammingTools.ConfigString(AnalysisJobName(name) + config, name) == config
  {
    var marker := AnalyzePrefix + name;
    assert AnalysisJobName(name) == marker;
    SplitAfterPrefix(marker, config);
    SplitWithout(config, marker);
    assert Split(marker + config, marker) == ["", config];
  }

  /** The request of the script: an analysis job name and the renamed comparison arguments. */
  lemma {:induction false} CompareRequestMeaning<V>(name: string, allArgs: seq<(string, V)>, nk: string)
    ensures CompareRequest(name, allArgs).jobName[|AnalyzePrefix|..] == name
    ensures nk in CompareRequest(name, allArgs).compareArgs <==>
      exists i :: 0 <= i < |allArgs| && RenamedTo(allArgs, i, nk)
  {
    CompareArgsKeys(allArgs, nk);
  }
}
