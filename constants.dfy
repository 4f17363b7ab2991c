/**
 * The literal data of src/lib/constants.ts: the model list, the default virtual file system
 * and the agent prompt templates.
 */
module Constants {
  import opened Wrappers
  import opened Types
  import opened Text
  import Records

  // ---------------------------------------------------------------------------
  // Models
  // ---------------------------------------------------------------------------

  /** The OpenRouter model choices, in display order; no model identifier is listed twice. */
  function AiModels(): (models: seq<ModelOption>)
    ensures |models| == 9
    ensures forall i, j :: 0 <= i < j < |models| ==> models[i].value != models[j].value
  {
    [ ModelOption("openai/gpt-4o", "GPT-4o"),
      ModelOption("openai/gpt-4o-mini", "GPT-4o Mini"),
      ModelOption("anthropic/claude-3.5-sonnet", "Claude 3.5 Sonnet"),
      ModelOption("anthropic/claude-3-haiku", "Claude 3 Haiku"),
      ModelOption("deepseek/deepseek-chat", "DeepSeek Chat"),
      ModelOption("google/gemini-pro", "Gemini Pro"),
      ModelOption("meta-llama/llama-3.1-405b-instruct", "Llama 3.1 405B"),
      ModelOption("meta-llama/llama-3.1-70b-instruct", "Llama 3.1 70B"),
      ModelOption("qwen/qwen-2.5-72b-instruct", "Qwen 2.5 72B") ]
  }

  const OpenRouterBaseUrl := "https://openrouter.ai/api/v1"

  // ---------------------------------------------------------------------------
  // Default file system
  // ---------------------------------------------------------------------------

  /** The file the app falls back to whenever no current file is set. */
  const FallbackFile := "index.js"

  function FileNode(name: string, content: string): FileSystemNode {
    FileSystemNode(Some(File), Some(name), Some(content))
  }

  const ReadmeContent := "# Welcome to Nuzantara Studio PRO\n\nA fully client-side web IDE with AI-powered development tools.\n\n## Features\n- Multi-model AI chat (GPT-4, Claude, DeepSeek, Llama, etc.)\n- Monaco Editor with syntax highlighting\n- Virtual file system\n- JavaScript terminal\n- AI Agents for code analysis\n\n## Getting Started\n1. Add your OpenRouter API key in the settings\n2. Start chatting or create a new file\n3. Use AI agents to analyze and improve your code\n\nHappy coding! \U{1F680}"
  const IndexJsContent := "// Welcome to Nuzantara Studio PRO\nconsole.log('Hello, World!');\n\nfunction greet(name) {\n  return `Hello, ${name}!`;\n}\n\ngreet('Developer');"
  const StylesCssContent := "body {\n  margin: 0;\n  padding: 0;\n  font-family: system-ui, sans-serif;\n}\n\n.container {\n  max-width: 1200px;\n  margin: 0 auto;\n  padding: 20px;\n}"

  /**
   * The initial file system: three files, each stored under its own name, one of them the
   * fallback current file.
   */
  function DefaultFileSystem(): (fs: FileSystem)
    ensures |fs| == 3 && Records.UniqueKeys(fs)
    ensures forall i :: 0 <= i < |fs| ==> fs[i].1.kind == Some(File) && fs[i].1.name == Some(fs[i].0)
    ensures FallbackFile in Records.Keys(fs)
  {
    [ ("README.md", FileNode("README.md", ReadmeContent)),
      ("index.js", FileNode("index.js", IndexJsContent)),
      ("styles.css", FileNode("styles.css", StylesCssContent)) ]
  }

  // ---------------------------------------------------------------------------
  // Agent prompts
  // ---------------------------------------------------------------------------

  /** The words every agent's instruction opens with, naming the role the model is to take. */
  const Role := "You are a "
  /** The instruction each agent's prompt opens with. */
  const ExplainPreamble := Role + "code explanation expert. Analyze the following code and provide a clear, comprehensive explanation of what it does, how it works, and any notable patterns or techniques used."
  const RefactorPreamble := Role + "code refactoring expert. Review the following code and suggest improvements for readability, performance, maintainability, and best practices. Provide the refactored code with explanations."
  const TestsPreamble := Role + "test generation expert. Write comprehensive unit tests for the following code. Include edge cases, error handling, and use appropriate testing frameworks."
  const PlanPreamble := Role + "software architect. Based on the following code or requirements, create a detailed implementation plan with clear steps, architecture decisions, and recommendations."

  function Preamble(t: AgentType): (preamble: string)
    ensures StartsWith(preamble, Role) && |preamble| > |Role|
  {
    var preamble := match t
      case Explain => ExplainPreamble
      case Refactor => RefactorPreamble
      case Tests => TestsPreamble
      case Plan => PlanPreamble;
    assert preamble[..|Role|] == Role;
    preamble
  }

  /** A blank line and an opening Markdown code fence on its own line. */
  const OpenFence := "\n\n```\n"
  /** A closing Markdown code fence on its own line. */
  const CloseFence := "\n```"

  /**
   * The prompt template of one agent applied to the code of the current file: the preamble,
   * then the code, unchanged, inside a fenced block that ends the prompt.
   */
  function AgentPrompt(t: AgentType, code: string): (p: string)
    ensures p == Preamble(t) + OpenFence + code + CloseFence
    ensures |p| == |Preamble(t)| + |code| + 10
    ensures StartsWith(p, Preamble(t))
    ensures OccursAt(p, code, |Preamble(t)| + |OpenFence|)
    ensures p[|p| - |CloseFence|..] == CloseFence
  {
    var p := Preamble(t) + OpenFence + code + CloseFence;
    assert p[..|Preamble(t)|] == Preamble(t);
    assert p[|Preamble(t)| + |OpenFence|..|Preamble(t)| + |OpenFence| + |code|] == code;
    p
  }

  /** Reads the code back out of a prompt of agent `t`. */
  function CodeOfPrompt(t: AgentType, p: string): string
    requires |p| >= |Preamble(t)| + 10
  {
    p[|Preamble(t)| + |OpenFence|..|p| - |CloseFence|]
  }

  lemma CodeOfPromptRoundTrip(t: AgentType, code: string)
    ensures CodeOfPrompt(t, AgentPrompt(t, code)) == code
  {
    var p := AgentPrompt(t, code);
    assert OccursAt(p, code, |Preamble(t)| + |OpenFence|);
  }

  /** The four preambles are pairwise different. */
  lemma PreamblesDistinct(t1: AgentType, t2: AgentType)
    requires t1 != t2
    ensures Preamble(t1) != Preamble(t2)
    ensures |Preamble(t1)| != |Preamble(t2)|
  {
  }

  /** For one agent, different code gives different prompts. */
  lemma AgentPromptInjective(t: AgentType, c1: string, c2: string)
    requires AgentPrompt(t, c1) == AgentPrompt(t, c2)
    ensures c1 == c2
  {
    CodeOfPromptRoundTrip(t, c1);
    CodeOfPromptRoundTrip(t, c2);
  }

}
