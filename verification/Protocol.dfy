/** Names and limits shared by the server, the workers and the plugins. */
module Protocol {
  /** A sync token. */
  type Token = nat

  /** An instrument's name. */
  type Name = string

  /** The size of the character buffers in the plugin interface, terminator included. */
  const PLUGIN_MAX_STRING_LEN := 128
}
