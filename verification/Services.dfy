/** What the deployment modules share: container health and the service labels. */
module Services {

  datatype Health = Healthy | Progressing | Degraded | Unknown

  const HOOK_LABEL := "com.dockercd.hook"
  const SYNC_WAVE_LABEL := "com.dockercd.sync-wave"
  const STRATEGY_LABEL := "com.dockercd.strategy"
  const IGNORE_DRIFT_LABEL := "com.dockercd.ignore-drift"
}
