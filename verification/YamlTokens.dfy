/** The tokens that the YAML scanner hands to the parser. */
module YamlTokens {
  import opened Bytes
  import opened YamlEvents

  datatype Kind =
    | StreamStartT | StreamEndT
    | VersionT(version: Version) | TagDirectiveT(directive: TagDirective)
    | DocumentStartT | DocumentEndT
    | BlockSequenceStartT | BlockMappingStartT | BlockEndT
    | FlowSequenceStartT | FlowSequenceEndT | FlowMappingStartT | FlowMappingEndT
    | BlockEntryT | FlowEntryT | KeyT | ValueT
    | AliasT(name: Name) | AnchorT(name: Name) | TagT(handle: Name, suffix: Name)
    | ScalarT(value: Name, style: ScalarStyle)

  /** A token and where in the input it starts. */
  datatype Token = Token(kind: Kind, mark: nat)
}
