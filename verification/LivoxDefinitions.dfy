/** Device types and ports of the lidar SDK. */
module LivoxDefinitions {
  const MID360: nat := 9
  const PA: nat := 16
  const MID360S: nat := 35

  const DETECTION_PORT := 56000
  const HOST_DEBUG_POINT_CLOUD_PORT := 44332
  const PA_HOST_FAULT_PORT := 42867
  const LOG_PORT := 0
  const MID360_LIDAR_POINT_PORT := 56300
  const MID360_LIDAR_IMU_PORT := 56400
  const MID360S_LIDAR_POINT_PORT := 56300
  const MID360S_LIDAR_IMU_PORT := 56400
}
