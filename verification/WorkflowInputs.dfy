/** Filling the inputs of a workflow from its definitions, the images and the prompt of a request. */
module WorkflowInputs {

  const TEXT := 0
  const IMAGE := 1

  datatype Input = Input(name: string, kind: int, content: string)

  predicate IsImage(d: Input) { d.kind == IMAGE }

  /** A definition that takes no image. */
  function Filled(d: Input, prompt: string): Input {
    if d.kind == TEXT && d.name == "InputPrompt" && prompt != "" then d.(content := prompt) else d
  }

  /** The images go to the image slots one after the other; later slots keep their default. */
  function Fill(defs: seq<Input>, urls: seq<string>, prompt: string): (r: seq<Input>)
    ensures |r| == |defs|
  {
    if defs == [] then []
    else if IsImage(defs[0]) && urls != [] then [defs[0].(content := urls[0])] + Fill(defs[1..], urls[1..], prompt)
    else if IsImage(defs[0]) then [defs[0]] + Fill(defs[1..], urls, prompt)
    else [Filled(defs[0], prompt)] + Fill(defs[1..], urls, prompt)
  }

  function Inputs(defs: seq<Input>, urls: seq<string>, prompt: string): seq<Input> {
    Fill(defs, urls, prompt) + if prompt != "" then [Input("custom_prompt", TEXT, prompt)] else []
  }

  method BuildWorkflowInputsFromImage(inputDefinitions: seq<Input>, imageURLs: seq<string>, prompt: string)
    returns (workflowInputs: seq<Input>)
    ensures workflowInputs == Inputs(inputDefinitions, imageURLs, prompt)
  {
    workflowInputs := [];
    var imageURLIndex := 0;
    for i := 0 to |inputDefinitions|
      invariant 0 <= imageURLIndex <= |imageURLs|
      invariant workflowInputs + Fill(inputDefinitions[i..], imageURLs[imageURLIndex..], prompt)
                  == Fill(inputDefinitions, imageURLs, prompt)
    {
      var inputDef := inputDefinitions[i];
      assert inputDefinitions[i..] == [inputDef] + inputDefinitions[i + 1..];
      var workflowInput := Input(inputDef.name, inputDef.kind, "");
      if inputDef.kind == IMAGE {
        if imageURLIndex < |imageURLs| {
          assert imageURLs[imageURLIndex..][1..] == imageURLs[imageURLIndex + 1..];
          workflowInput := workflowInput.(content := imageURLs[imageURLIndex]);
          imageURLIndex := imageURLIndex + 1;
        } else {
          workflowInput := workflowInput.(content := inputDef.content);
        }
      } else if inputDef.kind == TEXT {
        if inputDef.name == "InputPrompt" && prompt != "" {
          workflowInput := workflowInput.(content := prompt);
        } else {
          workflowInput := workflowInput.(content := inputDef.content);
        }
      } else {
        workflowInput := workflowInput.(content := inputDef.content);
      }
      workflowInputs := workflowInputs + [workflowInput];
    }
    if prompt != "" {
      workflowInputs := workflowInputs + [Input("custom_prompt", TEXT, prompt)];
    }
  }

  // ----- main results -----

  /** How many image slots come first. */
  function Slots(defs: seq<Input>): nat {
    if defs == [] then 0 else (if IsImage(defs[0]) then 1 else 0) + Slots(defs[1..])
  }

  /** Position by position: the image slot behind j image slots gets URL j if there is one and keeps its
      default otherwise; name and type stay; only a text input named InputPrompt takes the prompt. */
  lemma {:induction false} FilledByPosition(defs: seq<Input>, urls: seq<string>, prompt: string, i: nat)
    requires i < |defs|
    ensures var j := Slots(defs[..i]);
            Fill(defs, urls, prompt)[i] ==
              if defs[i].kind == 1 && j < |urls| then Input(defs[i].name, 1, urls[j])
              else if defs[i].kind == 0 && defs[i].name == "InputPrompt" && prompt != ""
              then Input("InputPrompt", 0, prompt)
              else defs[i]
  {
    if i > 0 {
      var rest := if IsImage(defs[0]) && urls != [] then urls[1..] else urls;
      FilledByPosition(defs[1..], rest, prompt, i - 1);
      assert defs[..i][1..] == defs[1..][..i - 1];
      assert Fill(defs, urls, prompt)[i] == Fill(defs[1..], rest, prompt)[i - 1];
    }
  }

  function Contents(inputs: seq<Input>): (r: seq<string>)
    ensures |r| == Slots(inputs)
  {
    if inputs == [] then []
    else (if IsImage(inputs[0]) then [inputs[0].content] else []) + Contents(inputs[1..])
  }

  /** urls written over the first of the defaults. */
  function Over(defaults: seq<string>, urls: seq<string>): (r: seq<string>)
    ensures |r| == |defaults|
  {
    if |urls| <= |defaults| then urls + defaults[|urls|..] else urls[..|defaults|]
  }

  lemma OverStep(defaults: seq<string>, urls: seq<string>)
    requires defaults != []
    ensures Over(defaults, urls) ==
              if urls != [] then [urls[0]] + Over(defaults[1..], urls[1..])
              else [defaults[0]] + Over(defaults[1..], urls)
  {
    if urls != [] { assert urls == [urls[0]] + urls[1..]; }
  }

  /** Read in order, the image slots hold the URLs, as many as fit, and then the remaining defaults. */
  lemma {:induction false} ImagesInOrder(defs: seq<Input>, urls: seq<string>, prompt: string)
    ensures Contents(Fill(defs, urls, prompt)) == Over(Contents(defs), urls)
  {
    if defs != [] {
      var filled := Fill(defs, urls, prompt);
      var rest := if IsImage(defs[0]) && urls != [] then urls[1..] else urls;
      ImagesInOrder(defs[1..], rest, prompt);
      assert filled[1..] == Fill(defs[1..], rest, prompt);
      if IsImage(defs[0]) {
        OverStep(Contents(defs), urls);
        assert Contents(defs)[1..] == Contents(defs[1..]);
      }
    }
  }

  lemma InputCount(defs: seq<Input>, urls: seq<string>, prompt: string)
    ensures |Inputs(defs, urls, prompt)| == |defs| + if prompt != "" then 1 else 0
    ensures prompt != "" ==> Inputs(defs, urls, prompt)[|defs|] == Input("custom_prompt", TEXT, prompt)
  {
  }
}
