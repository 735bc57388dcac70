/** The page (src/pages/Index.tsx) owns the one config the editor and the
    preview share. Only its initial value is modelled. */
module Shell {
  import opened Wrappers
  import opened RpcTypes

  /** `{ ...defaultRpcConfig, startTimestamp: Date.now() }`, where `loadTime`
      is when the types module was evaluated and `sessionStart` is when the
      page state was created. */
  function InitialConfig(loadTime: int, sessionStart: int): (r: RpcConfig)
    ensures r.startTimestamp == Some(sessionStart)
    ensures forall f :: f != StartTimestampField ==> Get(r, f) == Get(DefaultRpcConfig(loadTime), f)
  {
    DefaultRpcConfig(loadTime).(startTimestamp := Some(sessionStart))
  }

  /** The default's own timestamp is always overridden, so when the types
      module was loaded does not matter. */
  lemma InitialConfigIgnoresLoadTime(loadTime1: int, loadTime2: int, sessionStart: int)
    ensures InitialConfig(loadTime1, sessionStart) == InitialConfig(loadTime2, sessionStart)
  {
    ConfigExtensionality(InitialConfig(loadTime1, sessionStart), InitialConfig(loadTime2, sessionStart));
  }
}
