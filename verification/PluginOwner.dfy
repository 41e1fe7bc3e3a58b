/** The identity of a plugin in the three owner-scoped registries. */
module PluginOwner {

  /** What an *entry pointer of the plugin manager stands for. */
  type Owner = nat
}
