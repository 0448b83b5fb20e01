/** `convertToModelCode(config)`: the source text of a script that builds the
    configured network, its optimiser, loss, metric and trainer, one
    statement per line. */
module ModelCode {

  /** One layer of the configuration; each field is the text the template
      literal prints for it. */
  datatype LayerConfig = LayerConfig(inputs: string, outputs: string, activation: string)

  /** An optimiser option: falsy (missing, 0, NaN, empty), or the text a
      truthy value prints as. */
  datatype Setting = Falsy | Truthy(text: string)

  datatype OptimizerConfig = OptimizerConfig(learningRate: Setting, decay: Setting, minLr: Setting)

  datatype Config = Config(layers: seq<LayerConfig>, optimizer: OptimizerConfig, loss: string, metric: string)

  const ModelLine: string := "var model = new Sequential();"
  const TrainerLine: string := "var trainer = new " + "Trainer(model, opt, lossFn, metric);"

  function LayerLine(l: LayerConfig): string
  {
    "model.add(new Linear(" + l.inputs + "," + l.outputs + ",'" + l.activation + "'));"
  }

  /** `value || fallback`, printed: the defaults 1e-2, 0.2 and 1e-4 print as
      0.01, 0.2 and 0.0001. */
  function OrDefault(s: Setting, fallback: string): string
  {
    match s
    case Falsy => fallback
    case Truthy(t) => t
  }

  function OptimizerLine(o: OptimizerConfig): string
  {
    "let opt = new SGD(" + "model.getParameters(), {lr:" + OrDefault(o.learningRate, "0.01") +
    ", decay:" + OrDefault(o.decay, "0.2") + ", minLr:" + OrDefault(o.minLr, "0.0001") + "});"
  }

  function LossLine(loss: string): string
  {
    "let lossFn = new " + loss + "();"
  }

  function MetricLine(metric: string): string
  {
    "const metric = new " + metric + "(" + (if metric == "Accuracy" then "100" else "") + ");"
  }

  /** The lines `modelCode` holds before the join. */
  function Lines(config: Config): seq<string>
  {
    [ModelLine] + seq(|config.layers|, i requires 0 <= i < |config.layers| => LayerLine(config.layers[i])) +
    [OptimizerLine(config.optimizer), LossLine(config.loss), MetricLine(config.metric), TrainerLine]
  }

  /** `lines.join('\n')`. */
  function Join(lines: seq<string>): string
  {
    if lines == [] then ""
    else if |lines| == 1 then lines[0]
    else lines[0] + "\n" + Join(lines[1..])
  }

  /** The position of the first line break. */
  function FirstBreak(s: string): (r: nat)
    requires '\n' in s
    ensures r < |s| && s[r] == '\n' && '\n' !in s[..r]
  {
    if s[0] == '\n' then 0
    else
      assert '\n' in s[1..] by {
        var k :| 0 <= k < |s| && s[k] == '\n';
        assert s[1..][k - 1] == '\n';
      }
      var r := FirstBreak(s[1..]) + 1;
      assert s[..r] == [s[0]] + s[1..][..r - 1];
      r
  }

  /** The text cut at every line break, the inverse of Join. */
  function Split(s: string): (r: seq<string>)
    ensures r != []
    decreases |s|
  {
    if '\n' !in s then [s]
    else
      var i := FirstBreak(s);
      [s[..i]] + Split(s[i + 1..])
  }

  /** Joining lines without breaks and cutting at the breaks gives back the lines. */
  lemma {:induction false} SplitJoin(lines: seq<string>)
    requires lines != [] && forall i :: 0 <= i < |lines| ==> '\n' !in lines[i]
    ensures Split(Join(lines)) == lines
  {
    if |lines| > 1 {
      var a := lines[0];
      var s := Join(lines);
      assert s == a + "\n" + Join(lines[1..]);
      assert s[|a|] == '\n';
      assert '\n' in s;
      assert s[..|a|] == a;
      BreakAfter(a, Join(lines[1..]));
      assert s[|a| + 1..] == Join(lines[1..]);
      SplitJoin(lines[1..]);
    }
  }

  /** The first break of a + "\n" + rest is the one after a, when a has none. */
  lemma {:induction false} BreakAfter(a: string, rest: string)
    requires '\n' !in a
    ensures FirstBreak(a + "\n" + rest) == |a|
    decreases |a|
  {
    var s := a + "\n" + rest;
    assert s[|a|] == '\n';
    if a != [] {
      assert s[1..] == a[1..] + "\n" + rest;
      assert a[0] != '\n';
      BreakAfter(a[1..], rest);
    }
  }

  /** The script has one line per layer and five more: the model first, the
      layers in order, then the optimiser, the loss, the metric and the trainer. */
  lemma LinesShape(config: Config)
    ensures var ls := Lines(config);
            var n := |config.layers|;
            |ls| == n + 5 && ls[0] == ModelLine &&
            (forall i :: 0 <= i < n ==> ls[i + 1] == LayerLine(config.layers[i])) &&
            ls[n + 1] == OptimizerLine(config.optimizer) && ls[n + 2] == LossLine(config.loss) &&
            ls[n + 3] == MetricLine(config.metric) && ls[n + 4] == TrainerLine
  {
  }

  /** Text without line breaks in any field gives a script of exactly
      |layers| + 5 lines, which read back as the generated lines. */
  lemma LineCount(config: Config)
    requires forall l :: l in config.layers ==> '\n' !in l.inputs && '\n' !in l.outputs && '\n' !in l.activation
    requires NoBreak(config.optimizer.learningRate) && NoBreak(config.optimizer.decay) && NoBreak(config.optimizer.minLr)
    requires '\n' !in config.loss && '\n' !in config.metric
    ensures Split(Join(Lines(config))) == Lines(config)
    ensures |Split(Join(Lines(config)))| == |config.layers| + 5
  {
    var ls := Lines(config);
    LinesShape(config);
    var n := |config.layers|;
    FixedLines(config.loss, config.metric);
    OptimizerNoBreak(config.optimizer);
    forall i | 0 <= i < |ls| ensures '\n' !in ls[i] {
      if 0 < i <= n {
        assert ls[i] == LayerLine(config.layers[i - 1]);
        assert config.layers[i - 1] in config.layers;
        LayerNoBreak(config.layers[i - 1]);
      }
    }
    SplitJoin(ls);
  }

  lemma FixedLines(loss: string, metric: string)
    requires '\n' !in loss && '\n' !in metric
    ensures '\n' !in ModelLine && '\n' !in TrainerLine
    ensures '\n' !in LossLine(loss) && '\n' !in MetricLine(metric)
  {
    TrainerNoBreak();
    assert '\n' !in "var model = new " + "Sequential();";
    assert ModelLine == "var model = new " + "Sequential();";
    var m := if metric == "Accuracy" then "100" else "";
    assert '\n' !in m;
    assert MetricLine(metric) == "const metric = new " + metric + "(" + m + ");";
  }

  lemma TrainerNoBreak()
    ensures '\n' !in TrainerLine
  {
    assert '\n' !in "var trainer = new ";
    assert '\n' !in "Trainer(model, opt, lossFn, metric);";
  }

  lemma LayerNoBreak(l: LayerConfig)
    requires '\n' !in l.inputs && '\n' !in l.outputs && '\n' !in l.activation
    ensures '\n' !in LayerLine(l)
  {
  }

  lemma OptimizerNoBreak(o: OptimizerConfig)
    requires NoBreak(o.learningRate) && NoBreak(o.decay) && NoBreak(o.minLr)
    ensures '\n' !in OptimizerLine(o)
  {
    var lr, d, m := OrDefault(o.learningRate, "0.01"), OrDefault(o.decay, "0.2"), OrDefault(o.minLr, "0.0001");
    assert '\n' !in lr && '\n' !in d && '\n' !in m;
    assert '\n' !in "let opt = new SGD(" && '\n' !in "model.getParameters(), {lr:";
    var p1 := "let opt = new SGD(" + "model.getParameters(), {lr:" + lr;
    var p2 := p1 + ", decay:" + d;
    var p3 := p2 + ", minLr:" + m;
    assert '\n' !in p1 && '\n' !in p2 && '\n' !in p3;
    assert OptimizerLine(o) == p3 + "});";
  }

  predicate NoBreak(s: Setting)
  {
    s.Truthy? ==> '\n' !in s.text
  }

  /** Missing optimiser options fall back to lr 0.01, decay 0.2 and minLr
      0.0001, each on its own: a falsy option prints as its default. */
  lemma OptimizerDefaults(o: OptimizerConfig)
    ensures OptimizerLine(OptimizerConfig(Falsy, Falsy, Falsy)) ==
            OptimizerLine(OptimizerConfig(Truthy("0.01"), Truthy("0.2"), Truthy("0.0001")))
    ensures o.learningRate == Falsy ==> OptimizerLine(o) == OptimizerLine(o.(learningRate := Truthy("0.01")))
    ensures o.decay == Falsy ==> OptimizerLine(o) == OptimizerLine(o.(decay := Truthy("0.2")))
    ensures o.minLr == Falsy ==> OptimizerLine(o) == OptimizerLine(o.(minLr := Truthy("0.0001")))
  {
  }

  /** The metric constructor gets the argument 100 exactly for 'Accuracy'. */
  lemma MetricArgument(metric: string)
    ensures MetricLine(metric) == "const metric = new " + metric + "(100);" <==> metric == "Accuracy"
    ensures metric != "Accuracy" ==> MetricLine(metric) == "const metric = new " + metric + "();"
  {
    var p := "const metric = new " + metric + "(";
    if metric != "Accuracy" {
      assert |MetricLine(metric)| == |p| + 2 < |p| + 5;
    }
  }

  /** The forEach of `convertToModelCode`: the model line, then one line per layer. */
  method LayerLines(config: Config) returns (lines: seq<string>)
    ensures lines == Lines(config)[..|config.layers| + 1]
  {
    lines := [ModelLine];
    for i := 0 to |config.layers|
      invariant lines == [ModelLine] + seq(i, j requires 0 <= j < i => LayerLine(config.layers[j]))
    {
      lines := lines + [LayerLine(config.layers[i])];
    }
  }

  /** `convertToModelCode(config)`. */
  method ConvertToModelCode(config: Config) returns (code: string)
    ensures code == Join(Lines(config))
  {
    var modelCode := LayerLines(config);
    modelCode := modelCode + [OptimizerLine(config.optimizer)];
    modelCode := modelCode + [LossLine(config.loss)];
    modelCode := modelCode + [MetricLine(config.metric)];
    modelCode := modelCode + [TrainerLine];
    assert modelCode == Lines(config);
    code := Join(modelCode);
  }
}
