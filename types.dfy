/** The data the IDE shell passes around (the interfaces of src/lib/types.ts, and the provider shape). */
module Types {
  import opened Wrappers
  import Records

  datatype NodeKind = File | Folder

  /**
   * A file-system node as the object it is at run time. A node always has `type` and `name`,
   * except the one the content handler creates for a key that was missing, which has only
   * `content`; so `kind` and `name` are optional here. `children` is not part of this model.
   */
  datatype FileSystemNode = FileSystemNode(kind: Option<NodeKind>, name: Option<string>, content: Option<string>)

  /** The virtual file system: file name to node, in key order. */
  type FileSystem = Records.Record<FileSystemNode>

  datatype Role = User | Assistant

  datatype ChatMessage = ChatMessage(id: string, role: Role, content: string, timestamp: int)

  datatype PanelType = Chat | Editor | Terminal | Files | Agents

  datatype AgentType = Explain | Refactor | Tests | Plan

  /** What one chat call is configured with. */
  datatype OpenRouterConfig = OpenRouterConfig(apiKey: string, model: string, baseUrl: string)

  /** A message on the wire: `{ role, content }`. */
  datatype WireMessage = WireMessage(role: string, content: string)

  /** A model choice `{ value, label }`; `label` is a Dafny keyword, hence `labelText`. */
  datatype ModelOption = ModelOption(value: string, labelText: string)

  /** An AI provider as the sidebar and the app read it: identity, display name, key policy, models in order. */
  datatype Provider = Provider(id: string, name: string, requiresApiKey: bool, models: seq<ModelOption>)
}
